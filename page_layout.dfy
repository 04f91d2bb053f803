/** The public page layout's client loader: signed-in users and admins are sent on. */
module PageLayout {
  import opened Js
  import AdminLayout

  /** What the loader does: redirect, or return undefined (no redirect). */
  datatype Decision = Redirect(path: string) | NoRedirect

  /** clientLoader. `account` is `account.get()` (its `$id`) and `existing` is
      `getExistingUser($id)` (null as None). */
  function ClientLoader(account: AdminLayout.Call<string>, existing: AdminLayout.Call<Option<AdminLayout.UserRecord>>): (d: Decision)
    ensures account.Threw? || account == AdminLayout.Returned("") ==> d == Redirect("/sign-in")
    ensures account.Returned? && account.value != "" ==>
              match existing
              case Threw => d == Redirect("/sign-in")
              case Returned(None) => d == NoRedirect
              case Returned(Some(rec)) =>
                d == if rec.status == Some("user") then Redirect("/")
                     else if rec.status == Some("admin") then Redirect("/dashboard")
                     else NoRedirect
    ensures d.Redirect? ==> d.path in {"/sign-in", "/", "/dashboard"}
  {
    match account
    case Threw => Redirect("/sign-in")
    case Returned(id) =>
      if id == "" then Redirect("/sign-in")
      else
        match existing
        case Threw => Redirect("/sign-in")
        case Returned(rec) =>
          if rec.Some? && rec.value.status == Some("user") then Redirect("/")
          else if rec.Some? && rec.value.status == Some("admin") then Redirect("/dashboard")
          else NoRedirect
  }

  /** The two layouts agree: they send exactly the same accounts to the home page; an
      account the public layout sends to sign in is sent there by the admin layout too; and
      the accounts the public layout sends to the dashboard are stored admins, whom the admin
      layout admits with their own record whenever that record has an id. */
  lemma LayoutsAgree(account: AdminLayout.Call<string>, existing: AdminLayout.Call<Option<AdminLayout.UserRecord>>,
                     store: AdminLayout.Call<()>)
    ensures ClientLoader(account, existing) == Redirect("/") <==>
              AdminLayout.ClientLoader(account, existing, store) == AdminLayout.Redirect("/")
    ensures ClientLoader(account, existing) == Redirect("/sign-in") ==>
              AdminLayout.ClientLoader(account, existing, store) == AdminLayout.Redirect("/sign-in")
    ensures ClientLoader(account, existing) == Redirect("/dashboard") ==>
              existing.Returned? && existing.value.Some? && existing.value.value.status == Some("admin")
              && (existing.value.value.id != "" ==>
                    AdminLayout.ClientLoader(account, existing, store) == AdminLayout.AdmitExisting(existing.value.value))
  {
  }
}
