/** What a route handler hands back to the web framework, as plain values.

    Templates, redirects, flashed messages and the login session are
    outcomes here; rendering, URL building and cookies are not modelled.
 */
module Web {
  import opened Tables

  /** The pages a handler redirects to. */
  datatype Endpoint =
    | LoginPage        // auth.login
    | AdminDashboard   // admin.dashboard_admin
    | GuruDashboard    // guru.dashboard_guru
    | SiswaDashboard   // siswa.dashboard_siswa

  /** Who is logged in: the user object handed to the login manager, if any. */
  datatype Session = Anonymous | LoggedIn(user: User)

  /** A handler's HTTP reply, carrying the data given to a template or file. */
  datatype Reply<V> =
    | Redirect(to: Endpoint)
    | Render(template: string, data: V)
    | Attachment(filename: string, data: V)
    | LoginRequired   // turned away by `login_required` before the handler body runs
    | BadRequest      // a required form field was missing

  /** A reply together with the session and the messages flashed while producing it. */
  datatype Exchange<V> = Exchange(reply: Reply<V>, session: Session, flashed: seq<string>)
}
