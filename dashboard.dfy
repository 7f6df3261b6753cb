/** The dashboard page (src/app/dashboard/page.tsx): the session guard and
    the name it greets the user with. */
module Dashboard {
  import opened Common

  /** `session.user` as next-auth hands it over; both fields may be absent. */
  datatype SessionUser = SessionUser(name: Option<string>, email: Option<string>)
  datatype Session = Session(user: Option<SessionUser>)

  /** A redirect before anything is rendered, or the welcome page with the
      greeting name and the e-mail shown in the header. */
  datatype Page = RedirectTo(path: string) | Welcome(userName: string, headerEmail: Option<string>)

  /** `s.split(sep)[0]`: the part of `s` before its first `sep`, or all of
      `s` when it has none. */
  function BeforeFirst(s: string, sep: char): (r: string)
    ensures StartsWith(s, r)
    ensures sep !in r
    ensures |r| < |s| ==> s[|r|] == sep
  {
    if s == [] || s[0] == sep then ""
    else
      var rest := BeforeFirst(s[1..], sep);
      assert s[..|rest| + 1] == [s[0]] + s[1..][..|rest|];
      [s[0]] + rest
  }

  /** The part before the first `@` of `local@domain` is `local`, when
      `local` has no `@`; the domain may hold further `@`s. */
  lemma {:induction false} BeforeFirstOfAddress(local: string, domain: string)
    requires '@' !in local
    ensures BeforeFirst(local + "@" + domain, '@') == local
  {
    var s := local + "@" + domain;
    var r := BeforeFirst(s, '@');
    assert forall i :: 0 <= i < |local| ==> s[i] == local[i] && local[i] in local;
    assert s[|local|] == '@';
    assert r == s[..|r|];
    assert s[..|local|] == local;
  }

  /** `session.user?.name || session.user?.email?.split('@')[0] || 'User'` */
  function UserName(user: Option<SessionUser>): (n: string)
    ensures n != ""
  {
    var name := if user.Some? then user.value.name else None;
    var prefix := if user.Some? && user.value.email.Some? then Some(BeforeFirst(user.value.email.value, '@')) else None;
    if Truthy(name) then name.value
    else if Truthy(prefix) then prefix.value
    else "User"
  }

  /** A present, non-empty name is shown as it is. */
  lemma NameWins(name: string, email: Option<string>)
    requires name != ""
    ensures UserName(Some(SessionUser(Some(name), email))) == name
  {
  }

  /** Without a name, a standard address `local@domain` greets `local`. */
  lemma AddressGreetsLocalPart(name: Option<string>, local: string, domain: string)
    requires !Truthy(name) && local != "" && '@' !in local
    ensures UserName(Some(SessionUser(name, Some(local + "@" + domain)))) == local
  {
    BeforeFirstOfAddress(local, domain);
  }

  /** Without a name, an e-mail with no `@` at all is shown whole. */
  lemma EmailWithoutAtShownWhole(name: Option<string>, email: string)
    requires !Truthy(name) && email != "" && '@' !in email
    ensures UserName(Some(SessionUser(name, Some(email)))) == email
  {
    assert email[..|email|] == email;
  }

  /** Without a name, and with no e-mail or one that begins with `@`, the
      greeting falls back to "User". */
  lemma FallsBackToUser(name: Option<string>, email: Option<string>)
    requires !Truthy(name)
    requires email.None? || (email.value != "" && email.value[0] == '@') || email == Some("")
    ensures UserName(Some(SessionUser(name, email))) == "User"
    ensures UserName(None) == "User"
  {
  }

  /** `DashboardPage`: no session redirects to /login before anything is
      rendered; a session is greeted by its user's name. */
  function DashboardPage(session: Option<Session>): (p: Page)
    ensures p.RedirectTo? <==> session.None?
    ensures p.RedirectTo? ==> p.path == "/login"
    ensures p.Welcome? ==> p.userName != ""
  {
    match session
    case None => RedirectTo("/login")
    case Some(s) =>
      Welcome(UserName(s.user), if s.user.Some? then s.user.value.email else None)
  }
}
