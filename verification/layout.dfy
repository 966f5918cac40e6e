/** The application shell: which sidebar entry is current, the avatar
    initials, the role label and sidebar sets, and the user fields it
    loads. */
module Layout {
  import opened Wrappers
  import opened GigSchema

  predicate StartsWith(s: string, prefix: string) {
    |prefix| <= |s| && s[..|prefix|] == prefix
  }

  /** `isCurrentPath`: the location is the entry's path or lies below it. */
  function IsCurrentPath(pathname: string, path: string): (r: bool)
    ensures r <==> (pathname == path
                    || (|pathname| > |path| && pathname[..|path|] == path && pathname[|path|] == '/'))
  {
    pathname == path || StartsWith(pathname, path + "/")
  }

  /** A sub-path is current, a path that merely shares a prefix is not. */
  lemma CurrentPathExamples()
    ensures IsCurrentPath("/dashboard/gigs/42", "/dashboard/gigs")
    ensures !IsCurrentPath("/dashboard/gigsx", "/dashboard/gigs")
    ensures !IsCurrentPath("/dashboard", "/dashboard/gigs")
  {
    assert "/dashboard/gigs/42"[..15] == "/dashboard/gigs";
    assert "/dashboard/gigsx"[15] == 'x';
  }

  // ---------------------------------------------------------------------
  // Initials: `userName.split(' ').map((n) => n[0]).join('')`

  /** `String.prototype.split` on one character: the pieces between
      separators, with an empty piece wherever two separators meet or the
      string starts or ends with one. The empty string gives one empty
      piece. */
  function Split(s: string, sep: char): (r: seq<string>)
    ensures 1 <= |r| <= |s| + 1
    decreases |s|
  {
    if s == [] then [""]
    else
      var rest := Split(s[1..], sep);
      if s[0] == sep then [""] + rest
      else [[s[0]] + rest[0]] + rest[1..]
  }

  /** `Array.prototype.join` with a one-character separator. */
  function Join(pieces: seq<string>, sep: char): string
    decreases |pieces|
  {
    if pieces == [] then ""
    else if |pieces| == 1 then pieces[0]
    else pieces[0] + [sep] + Join(pieces[1..], sep)
  }

  /** Gluing text onto the first piece glues it onto the joined string. */
  lemma JoinGlue(x: string, pieces: seq<string>, sep: char)
    requires |pieces| >= 1
    ensures Join([x + pieces[0]] + pieces[1..], sep) == x + Join(pieces, sep)
  {
    var glued := [x + pieces[0]] + pieces[1..];
    assert glued[0] == x + pieces[0];
    if |pieces| > 1 {
      assert glued[1..] == pieces[1..];
      calc {
        Join(glued, sep);
        glued[0] + [sep] + Join(glued[1..], sep);
        x + (pieces[0] + [sep] + Join(pieces[1..], sep));
      }
    }
  }

  /** Joining the pieces back with the separator gives the string again. */
  lemma {:induction false} JoinSplit(s: string, sep: char)
    ensures Join(Split(s, sep), sep) == s
    decreases |s|
  {
    if s != [] {
      var rest := Split(s[1..], sep);
      JoinSplit(s[1..], sep);
      assert s == [s[0]] + s[1..];
      if s[0] == sep {
        var r := [""] + rest;
        assert r[1..] == rest;
        assert Join(r, sep) == "" + [sep] + Join(rest, sep);
      } else {
        JoinGlue([s[0]], rest, sep);
      }
    }
  }

  /** A word with no separator is glued to the first piece of what follows. */
  lemma {:induction false} SplitWord(w: string, rest: string, sep: char)
    requires sep !in w
    ensures Split(w + rest, sep) == [w + Split(rest, sep)[0]] + Split(rest, sep)[1..]
    decreases |w|
  {
    var p := Split(rest, sep);
    if w == [] {
      assert w + rest == rest;
      assert w + p[0] == p[0];
      assert [p[0]] + p[1..] == p;
    } else {
      SplitWord(w[1..], rest, sep);
      assert (w + rest)[0] == w[0];
      assert (w + rest)[1..] == w[1..] + rest;
      var r := Split(w[1..] + rest, sep);
      assert r == [w[1..] + p[0]] + p[1..];
      assert Split(w + rest, sep) == [[w[0]] + r[0]] + r[1..];
      assert r[1..] == p[1..];
      assert [w[0]] + (w[1..] + p[0]) == w + p[0];
    }
  }

  /** Splitting words that hold no separator, joined by the separator,
      gives the words back. */
  lemma {:induction false} SplitJoin(words: seq<string>, sep: char)
    requires |words| >= 1
    requires forall k :: 0 <= k < |words| ==> sep !in words[k]
    ensures Split(Join(words, sep), sep) == words
    decreases |words|
  {
    if |words| == 1 {
      SplitWord(words[0], [], sep);
      assert words[0] + [] == words[0];
      assert Split([], sep) == [""];
      assert words[0] + "" == words[0];
    } else {
      var tail := Join(words[1..], sep);
      SplitJoin(words[1..], sep);
      SplitWord(words[0], [sep] + tail, sep);
      assert Join(words, sep) == words[0] + ([sep] + tail);
      var q := Split([sep] + tail, sep);
      assert ([sep] + tail)[1..] == tail;
      assert q == [""] + words[1..];
      assert q[0] == "" && q[1..] == words[1..];
      assert words[0] + "" == words[0];
      assert words == [words[0]] + words[1..];
    }
  }

  /** `n[0]` of each piece, where an empty piece gives `undefined` and
      `join` writes nothing for it. */
  function FirstChars(pieces: seq<string>): (r: string)
    ensures |r| <= |pieces|
  {
    if pieces == [] then ""
    else (if pieces[0] == "" then "" else [pieces[0][0]]) + FirstChars(pieces[1..])
  }

  /** The avatar's initials: never longer than the name. */
  function Initials(userName: string): (r: string)
    ensures |r| <= |userName|
  {
    InitialsNoLonger(userName, ' ');
    FirstChars(Split(userName, ' '))
  }

  /** Each character of the initials stands for a distinct, non-empty piece,
      so there are no more of them than characters in the string. */
  lemma {:induction false} InitialsNoLonger(s: string, sep: char)
    ensures |FirstChars(Split(s, sep))| <= |s|
    decreases |s|
  {
    if s != [] {
      InitialsNoLonger(s[1..], sep);
      var rest := Split(s[1..], sep);
      if s[0] == sep {
        assert ([""] + rest)[1..] == rest;
      } else {
        var r := [[s[0]] + rest[0]] + rest[1..];
        assert r[1..] == rest[1..];
        assert |FirstChars(rest[1..])| <= |FirstChars(rest)|;
      }
    }
  }

  /** No piece of a split holds the separator. */
  lemma {:induction false} SplitPiecesLackSeparator(s: string, sep: char)
    ensures forall k :: 0 <= k < |Split(s, sep)| ==> sep !in Split(s, sep)[k]
    decreases |s|
  {
    if s != [] {
      SplitPiecesLackSeparator(s[1..], sep);
      var rest := Split(s[1..], sep);
      if s[0] != sep {
        assert sep !in [s[0]] + rest[0];
      }
    }
  }

  /** First characters of pieces free of spaces hold no space. */
  lemma {:induction false} FirstCharsLackSpace(pieces: seq<string>)
    requires forall k :: 0 <= k < |pieces| ==> ' ' !in pieces[k]
    ensures ' ' !in FirstChars(pieces)
  {
    if pieces != [] {
      FirstCharsLackSpace(pieces[1..]);
      if pieces[0] != "" {
        assert pieces[0][0] in pieces[0];
      }
    }
  }

  /** The avatar's initials never contain a space. */
  lemma InitialsLackSpace(userName: string)
    ensures ' ' !in Initials(userName)
  {
    SplitPiecesLackSeparator(userName, ' ');
    FirstCharsLackSpace(Split(userName, ' '));
  }

  /** Initials of a name made of words with single spaces between them are
      the words' first letters, and an empty word adds nothing. */
  lemma InitialsOfWords(words: seq<string>)
    requires |words| >= 1
    requires forall k :: 0 <= k < |words| ==> ' ' !in words[k]
    ensures Initials(Join(words, ' ')) == FirstChars(words)
  {
    SplitJoin(words, ' ');
  }

  lemma InitialsOfNothing()
    ensures Initials("") == ""
  {}

  lemma InitialsExample()
    ensures Initials("Ada  Lovelace") == "AL"
  {
    var words := ["Ada", "", "Lovelace"];
    assert Join(words, ' ') == "Ada  Lovelace";
    InitialsOfWords(words);
  }

  // ---------------------------------------------------------------------
  // Role label and sidebar

  /** The header label: only the role string "admin" reads as the admin
      dashboard; any other string, including the empty one shown before
      the role has loaded, reads as the DJ dashboard. */
  function RoleLabel(userRole: string): (r: string)
    ensures r == "Admin Dashboard" <==> userRole == "admin"
    ensures r != "Admin Dashboard" ==> r == "DJ Dashboard"
  {
    if userRole == "admin" then "Admin Dashboard" else "DJ Dashboard"
  }

  datatype NavItem = NavItem(caption: string, href: string, current: bool)

  const AdminLinks: seq<(string, string)> := [
    ("Customers", "/dashboard/customers"),
    ("Venues", "/dashboard/venues"),
    ("Gigs", "/dashboard/gigs"),
    ("DJs", "/dashboard/djs"),
    ("Billing", "/dashboard/billing")]

  const DjLinks: seq<(string, string)> := [
    ("My Schedule", "/dashboard/schedule"),
    ("My Payouts", "/dashboard/payouts")]

  /** The sidebar section for a role, each entry marked current against the
      location. */
  function Sidebar(userRole: string, pathname: string): (r: seq<NavItem>)
    ensures var links := if userRole == "admin" then AdminLinks else DjLinks;
      && |r| == |links|
      && forall k :: 0 <= k < |r| ==>
           && r[k].caption == links[k].0 && r[k].href == links[k].1
           && r[k].current == IsCurrentPath(pathname, links[k].1)
  {
    var links := if userRole == "admin" then AdminLinks else DjLinks;
    seq(|links|, k requires 0 <= k < |links| => NavItem(links[k].0, links[k].1, IsCurrentPath(pathname, links[k].1)))
  }

  /** Every sidebar path is "/dashboard/" followed by a name whose first
      letter differs from every other entry's. */
  lemma SidebarPathsDiffer(userRole: string, i: int, j: int)
    requires var links := if userRole == "admin" then AdminLinks else DjLinks;
      0 <= i < |links| && 0 <= j < |links| && i != j
    ensures var links := if userRole == "admin" then AdminLinks else DjLinks;
      |links[i].1| > 11 && |links[j].1| > 11 && links[i].1[11] != links[j].1[11]
  {}

  /** A current entry fixes the location's character just after
      "/dashboard/". */
  lemma CurrentFixesChar(pathname: string, path: string, n: int)
    requires 0 <= n < |path|
    requires IsCurrentPath(pathname, path)
    ensures n < |pathname| && pathname[n] == path[n]
  {
    if pathname != path {
      assert pathname[..|path|][n] == pathname[n];
    }
  }

  /** Whatever the location, at most one sidebar entry is current. */
  lemma AtMostOneCurrent(userRole: string, pathname: string, i: int, j: int)
    requires 0 <= i < |Sidebar(userRole, pathname)| && 0 <= j < |Sidebar(userRole, pathname)|
    requires Sidebar(userRole, pathname)[i].current && Sidebar(userRole, pathname)[j].current
    ensures i == j
  {
    var links := if userRole == "admin" then AdminLinks else DjLinks;
    if i != j {
      SidebarPathsDiffer(userRole, i, j);
      CurrentFixesChar(pathname, links[i].1, 11);
      CurrentFixesChar(pathname, links[j].1, 11);
    }
  }

  // ---------------------------------------------------------------------
  // The user fields

  /** The `profiles` columns the shell reads. */
  datatype Profile = Profile(fullName: string, email: string)

  class AppLayout {
    var userName: string
    var userEmail: string
    var userRole: string

    constructor()
      ensures userName == "" && userEmail == "" && userRole == ""
    {
      userName := "";
      userEmail := "";
      userRole := "";
    }

    /** `loadUserData`: with no signed-in user nothing changes; otherwise
        name and email are taken from the profile row and the role from the
        role row, each only when its row was returned. */
    method LoadUserData(user: Option<UserId>, profile: Option<Profile>, role: Option<AppRole>)
      modifies this
      ensures user.None? ==> userName == old(userName) && userEmail == old(userEmail) && userRole == old(userRole)
      ensures user.Some? ==>
        && (if profile.Some? then userName == profile.value.fullName && userEmail == profile.value.email
            else userName == old(userName) && userEmail == old(userEmail))
        && userRole == (if role.Some? then RoleName(role.value) else old(userRole))
    {
      if user.None? {
        return;
      }
      if profile.Some? {
        userName := profile.value.fullName;
        userEmail := profile.value.email;
      }
      if role.Some? {
        userRole := RoleName(role.value);
      }
    }
  }
}
