/** The dashboard landing page's role redirect, and the route table it
    redirects into. */
module DashboardRedirect {
  import opened Wrappers
  import opened GigSchema
  import Layout

  datatype Navigation = Navigation(path: string, replace: bool)

  /** `redirectBasedOnRole`: no navigation without a signed-in user; the
      admin role goes to the customer list, any other role or no role row
      at all to the DJ schedule, both replacing the history entry. */
  function RedirectBasedOnRole(user: Option<UserId>, role: Option<AppRole>): (r: Option<Navigation>)
    ensures r.None? <==> user.None?
    ensures r.Some? ==> r.value.replace
    ensures r.Some? ==> (r.value.path == "/dashboard/customers" <==> role == Some(Admin))
    ensures r.Some? && role != Some(Admin) ==> r.value.path == "/dashboard/schedule"
  {
    if user.None? then None
    else if role.Some? && role.value == Admin then Some(Navigation("/dashboard/customers", true))
    else Some(Navigation("/dashboard/schedule", true))
  }

  datatype Page = IndexPage | AuthPage | DashboardPage | CustomersPage | VenuesPage
                | GigsPage | DJsPage | BillingPage | NotFound

  /** The route table: exact paths; the not-found page when none is equal. */
  const Routes: seq<(string, Page)> := [
    ("/", IndexPage),
    ("/auth", AuthPage),
    ("/dashboard", DashboardPage),
    ("/dashboard/customers", CustomersPage),
    ("/dashboard/venues", VenuesPage),
    ("/dashboard/gigs", GigsPage),
    ("/dashboard/djs", DJsPage),
    ("/dashboard/billing", BillingPage)]

  function MatchRoute(table: seq<(string, Page)>, path: string): (r: Page)
    ensures r == NotFound <==> forall k :: 0 <= k < |table| ==> table[k].0 != path || table[k].1 == NotFound
    ensures r != NotFound ==> exists k :: 0 <= k < |table| && table[k] == (path, r)
  {
    if table == [] then NotFound
    else if table[0].0 == path then
      (if table[0].1 == NotFound then MatchRoute(table[1..], path) else table[0].1)
    else
      var r := MatchRoute(table[1..], path);
      assert forall k :: 1 <= k < |table| ==> table[k] == table[1..][k - 1];
      r
  }

  function PageFor(path: string): Page {
    MatchRoute(Routes, path)
  }

  /** No route names the DJ pages. */
  lemma DjPathsUnrouted()
    ensures forall k :: 0 <= k < |Routes| ==> Routes[k].0 != "/dashboard/schedule" && Routes[k].0 != "/dashboard/payouts"
  {
    forall k | 0 <= k < |Routes|
      ensures Routes[k].0 != "/dashboard/schedule" && Routes[k].0 != "/dashboard/payouts"
    {
      if k == 7 {
        assert Routes[k].0[11] != "/dashboard/payouts"[11];
      } else {
        assert |Routes[k].0| != 18;
      }
    }
  }

  /** The admin redirect lands on the customer list; the redirect for every
      other role lands on a path the route table does not know, so it shows
      the not-found page. */
  lemma RedirectTargets(user: UserId, role: Option<AppRole>)
    ensures var nav := RedirectBasedOnRole(Some(user), role).value;
      PageFor(nav.path) == if role == Some(Admin) then CustomersPage else NotFound
  {
    DjPathsUnrouted();
    if role == Some(Admin) {
      assert Routes[3] == ("/dashboard/customers", CustomersPage);
      assert forall k :: 0 <= k < 3 ==> Routes[k].0 != "/dashboard/customers";
    }
  }

  /** Every entry of the admin sidebar has a page. */
  lemma AdminSidebarTargets()
    ensures forall k :: 0 <= k < |Layout.AdminLinks| ==> PageFor(Layout.AdminLinks[k].1) != NotFound
  {
    forall k | 0 <= k < |Layout.AdminLinks| ensures PageFor(Layout.AdminLinks[k].1) != NotFound {
      assert Routes[k + 3].0 == Layout.AdminLinks[k].1;
    }
  }

  /** Neither entry of the DJ sidebar has a page. */
  lemma DjSidebarTargets()
    ensures forall k :: 0 <= k < |Layout.DjLinks| ==> PageFor(Layout.DjLinks[k].1) == NotFound
  {
    DjPathsUnrouted();
  }
}
