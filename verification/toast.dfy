/** The notification the dialogs and views show when an operation ends. */
module Notifications {

  /** A toast: its title, its description, and whether it is the
      destructive (error) variant. */
  datatype Toast = Toast(title: string, description: string, destructive: bool)
}
