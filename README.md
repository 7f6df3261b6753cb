# Credential authentication front end — a Dafny model

This project models the decision logic of a small Next.js authentication
application: the request-time route guard, the two server actions
(`loginAction`, `registerAction`) over a user store, the validation rules of
the authentication form, the messages and redirects of the login and
register forms, and the dashboard's session guard and greeting. Framework
and library calls are abstracted:

- bcrypt is a `Hasher` value passed in. The one property used about it is the
  hypothesis `AcceptsOwnHash`: a password is accepted by a hash made from it.
  It is not an axiom.
- The user store (Prisma) is a `map<string, User>` held by the class
  `AuthActions.UserStore`. Its ghost counter `hashCalls` counts calls to the
  hashing primitive.
- Each point where a foreign call can fault is a boolean in `LoginFaults` or
  `RegisterFaults`.
- next-auth's `signIn` is a function parameter of the login form's submit
  handler. The session the dashboard receives is a parameter.
- The zod e-mail check is a parameter `isEmail`.
- Random salts are a `salt` argument.

Modules follow the source files:

- `Middleware`: src/middleware.ts
- `AuthActions`: src/actions/auth.ts
- `AuthForm`: src/components/auth-form.tsx
- `LoginForm`: src/components/login-form.tsx
- `RegisterForm`: src/components/register-form.tsx
- `Dashboard`: src/app/dashboard/page.tsx

`Common` (optional values, JavaScript string truthiness) and `Navigation`
(locations, `URLSearchParams.get`, the URL strings) are shared helpers.

## Model

| member | source | states |
|---|---|---|
| `Middleware.Decide` | src/middleware.ts:5-27 | Redirect to /dashboard iff the path is public and a non-empty session cookie is present. Redirect to /login iff the path is not public and no non-empty session cookie is present. Otherwise continue: public without a session, or non-public with one. |
| `Middleware.Handle` | src/middleware.ts:29-35 | Paths outside the matcher are let through. The only redirect targets are /dashboard and /login. |
| `Middleware.ProtectedPathsAreDashboard` | src/middleware.ts:29-35 | Every intercepted path that is not public is /dashboard or lies under /dashboard/. |
| `Middleware.NoRedirectLoop` | src/middleware.ts:16-26 | With the cookies unchanged, the target of either redirect is intercepted and let through, so a redirect never leads to another redirect. |
| `Middleware.OnlySessionPresenceMatters` | src/middleware.ts:13-23 | Two cookie jars that agree on whether a non-empty session cookie is present get the same response. So a missing cookie equals an empty one, the cookie's content is never inspected, and other cookies are ignored. |
| `Middleware.GuardExamples` | src/middleware.ts:10-26 | The concrete guard cases: /dashboard without a session goes to /login; /login with one goes to /dashboard; /login without one and /dashboard/settings with one pass. /login/ and /dashboard are not public. |
| `Navigation.SearchParam` | src/components/login-form.tsx:16 | `searchParams.get` returns null iff no parameter has the key, and otherwise the value of the first parameter with that key. |
| `AuthForm.Utf16Length` | src/components/auth-form.tsx:37 | JavaScript's `.length` counts UTF-16 code units: between one and two per character, and zero only for the empty string. |
| `AuthForm.AnyChar` | src/components/auth-form.tsx:24-27 | A one-class regex test is true iff some character of the string is in the class. |
| `AuthForm.PasswordViolations` | src/components/auth-form.tsx:21-27 | A rule is reported iff the password fails it: length at least 8 UTF-16 code units, an A-Z, an a-z, a 0-9, a character outside A-Za-z0-9. |
| `AuthForm.PasswordAcceptedIffStrong` | src/components/auth-form.tsx:21-27 | The password schema reports no issue iff the password is strong, with strength stated directly over the characters. |
| `AuthForm.RuleMessagesDistinct` | src/components/auth-form.tsx:23-27 | Each password rule has its own message. |
| `AuthForm.PasswordIssues` | src/components/auth-form.tsx:21-27 | A rule's message is reported iff the password violates that rule. There is exactly one issue per violated rule, each carrying a violated rule's message and attached to `password`. |
| `AuthForm.MismatchReportedIffDifferent` | src/components/auth-form.tsx:46-49 | "Passwords don't match", attached to `confirmPassword`, is reported iff the password and its confirmation differ. |
| `AuthForm.Resolve` | src/components/auth-form.tsx:29-49 | The login schema is used iff `type` is exactly "login". It accepts iff the e-mail is well formed and the password non-empty, with `remember` unconstrained. The register schema accepts iff the name has at least 2 UTF-16 code units, the e-mail is well formed, the password is strong, `terms` is true and the confirmation matches, with `company` unconstrained. Accepted values are the input's fields. A rejection carries at least one issue. |
| `AuthForm.OnlyLoginTypeSkipsStrength` | src/components/auth-form.tsx:76 | A weak but non-empty password is accepted under "login" and rejected under any other `type`. |
| `AuthActions.LoginAction` | src/actions/auth.ts:5-36 | Success iff nothing faults, the e-mail is stored and the comparison with its stored hash succeeds. `login_failed` iff the lookup faults, or the user exists and the comparison faults. Every other failure is `invalid_credentials`; nothing is thrown. |
| `AuthActions.UnknownEmailRejected` | src/actions/auth.ts:12-19 | An e-mail not in the store gives `invalid_credentials` whatever the password, unless the lookup faults. |
| `AuthActions.WrongPasswordLooksLikeUnknownEmail` | src/actions/auth.ts:16-27 | A stored user with a failing comparison gives the same result as a store without that e-mail. |
| `AuthActions.NewUser` | src/actions/auth.ts:61-70 | The created record carries the submitted e-mail and name, and a hash that accepts the submitted password. |
| `AuthActions.RegisterResult` | src/actions/auth.ts:38-79 | Throws iff the values lack the register fields. Success iff the e-mail is new and neither the lookup, the hash nor the insert faults. `email_exists` iff the lookup works and the e-mail is stored. Every other failure is `registration_failed`. |
| `AuthActions.RegisterThenLogin` | src/actions/auth.ts:61-70 | Round trip: after the new record is inserted, a fault-free login with the same e-mail and password succeeds. |
| `AuthActions.SecondRegistrationRefused` | src/actions/auth.ts:50-58 | A registration for an e-mail an earlier one inserted reports `email_exists`, whatever its password and name, unless its lookup faults. |
| `AuthActions.RegisterSchemaOutputPassesGuard` | src/actions/auth.ts:40-42 | Values accepted by the register schema never trip the type guard. |
| `AuthActions.UserStore.RegisterAction` | src/actions/auth.ts:38-79 | Returns `RegisterResult` of the old store. Only a success changes the store, by exactly the new record. Failures and throws leave it unchanged. The hash is computed exactly when the lookup works and the e-mail is new. The store stays keyed by its records' own e-mails. After a success, login with the same credentials succeeds. |
| `AuthActions.RegisterTwice` | src/actions/auth.ts:50-70 | Two registrations with one e-mail: if the first succeeds, the second reports `email_exists` and the store holds the first record. |
| `LoginForm.ErrorMessage` | src/components/login-form.tsx:15-25 | A message appears iff the `error` parameter is one of the four codes of the outcome vocabulary, and it is that code's message. An absent or other code gives none. |
| `LoginForm.MessagesDistinct` | src/components/login-form.tsx:17-24 | The four codes show four different messages. |
| `LoginForm.SuccessMessage` | src/components/login-form.tsx:27-32 | The success message appears iff `registered` is exactly "true". |
| `LoginForm.ErrorRedirectShowsMessage` | src/components/login-form.tsx:15-32 | /login?error=<code> shows that code's message and no success message. |
| `LoginForm.Navigate` | src/components/login-form.tsx:45-54 | The router first pushes exactly one location. It is /dashboard iff `signIn` resolved without a truthy error. Exactly one refresh follows a push to /dashboard, and none follows an error push. |
| `LoginForm.FailedSignInShowsMessage` | src/components/login-form.tsx:45-54 | A failed sign-in lands on /login showing a message: the `login_failed` one for a rejection, the `invalid_credentials` one for an error response. |
| `LoginForm.LoginFailedHref` | src/components/login-form.tsx:52-54 | A rejected sign-in pushes "/login?error=login_failed". |
| `LoginForm.InvalidCredentialsHref` | src/components/login-form.tsx:45-46 | A response with a truthy error pushes "/login?error=invalid_credentials". |
| `LoginForm.DashboardHref` | src/components/login-form.tsx:47-50 | An undefined response pushes "/dashboard". |
| `LoginForm.LoginFormState.constructor` | src/components/login-form.tsx:12 | `isLoading` starts false. |
| `LoginForm.LoginFormState.HandleSubmit` | src/components/login-form.tsx:35-58 | Loading is set true, then comes exactly the navigation for the outcome of `signIn(email, password)`, then loading is set false. `isLoading` ends false on every path. |
| `RegisterForm.ErrorMessage` | src/components/register-form.tsx:11-18 | A message appears iff the code is `email_exists` or `registration_failed`. |
| `RegisterForm.RecognisesFewerCodesThanLoginForm` | src/components/register-form.tsx:12-18 | Where the register form shows a message, the login form shows the same text. `invalid_credentials` and `login_failed` show a message only on the login form. |
| `RegisterForm.RedirectFor` | src/components/register-form.tsx:21-31 | No redirect iff the action threw. Every redirect has path /login. It is /login?registered=true iff the action succeeded. |
| `RegisterForm.FailuresCollapse` | src/components/register-form.tsx:26-30 | `email_exists` goes to ?error=email_exists. Every other failure goes to ?error=registration_failed. |
| `RegisterForm.RedirectLandsOnOneBanner` | src/components/register-form.tsx:24-30 | The login page reached shows the success message iff the action succeeded, and an error message iff it failed, with the matching text. The redirect never targets /register. |
| `RegisterForm.RegisteredHref` | src/components/register-form.tsx:24-25 | Success redirects to "/login?registered=true". |
| `RegisterForm.EmailExistsHref` | src/components/register-form.tsx:26-27 | `email_exists` redirects to "/login?error=email_exists". |
| `RegisterForm.RegistrationFailedHref` | src/components/register-form.tsx:28-29 | Every failure other than `EmailExists` redirects to "/login?error=registration_failed". |
| `RegisterForm.HandleSubmit` | src/components/register-form.tsx:21-31 | The redirect is the one for `registerAction`'s result on the old store. The store gains the new record exactly when the redirect is the success one. |
| `Dashboard.BeforeFirst` | src/app/dashboard/page.tsx:22 | `split('@')[0]` is a prefix of the string with no `@`. When shorter than the string, it stops at an `@`. |
| `Dashboard.BeforeFirstOfAddress` | src/app/dashboard/page.tsx:22 | For `local@domain` with no `@` in `local`, the part before the first `@` is `local`. |
| `Dashboard.UserName` | src/app/dashboard/page.tsx:22 | The greeting name is never empty. |
| `Dashboard.NameWins` | src/app/dashboard/page.tsx:22 | A present, non-empty name is the greeting. |
| `Dashboard.AddressGreetsLocalPart` | src/app/dashboard/page.tsx:22 | Without a truthy name, the e-mail's non-empty part before its first `@` is the greeting. |
| `Dashboard.EmailWithoutAtShownWhole` | src/app/dashboard/page.tsx:22 | Without a truthy name, an e-mail with no `@` is the greeting in full. |
| `Dashboard.FallsBackToUser` | src/app/dashboard/page.tsx:22 | Without a truthy name, and with no e-mail, an empty one or one starting with `@`, the greeting is "User". |
| `Dashboard.DashboardPage` | src/app/dashboard/page.tsx:12-22 | Redirect to /login iff there is no session, before anything is rendered. Otherwise the page greets a non-empty name. |

## Left out

- JSX rendering, the show-password toggles, styling, default form values, and passing `isLoading` to the submit button: these are presentation.
- bcrypt internals. No theorem says `compare` rejects every other password, since bcrypt truncates its input at 72 bytes. So the rule that a wrong password for a stored user gives `invalid_credentials` is stated in terms of the comparison's result.
- Prisma, the dynamic `import()` calls and `console.error` logging are foreign I/O. A fault in the imports is folded into the lookup fault, which has the same outcome.
- The race between the uniqueness check and `create`. Only the database's unique constraint resolves it; a losing `create` is the `create` fault here.
- next-auth's `signIn`, `signOut`, `getServerSession` and the credentials provider in `@/auth`, which is not part of this model. The login form calls `signIn`, not `loginAction`, so the two are not connected.
- The zod e-mail format check, which is the parameter `isEmail`.
- The order in which zod lists issues.
- AuthForm.MismatchReportedIffDifferent: treats the password-confirmation refinement as a plain conjunction with the field rules. zod skips the refinement when the `terms` literal check fails, so then the mismatch message is not shown, though the form is rejected either way.
- Strings are sequences of Unicode scalar values, so a JavaScript string holding an unpaired surrogate has no counterpart here; lengths are counted in UTF-16 code units as JavaScript does.
- Middleware.Intercepted: the matcher `/dashboard/:path*` is modelled as "/dashboard" or any path starting with "/dashboard/". Next.js pattern details (empty segments, trailing-slash normalisation) are framework plumbing.
- The redirect and next response objects, `router.refresh` beyond being recorded as a call, and the internal throw of `redirect()` from next/navigation.
- src/app/login/page.tsx, src/app/register/page.tsx and src/components/logout-button.tsx: each is a one-line wrapper over a framework call.
- The type guard of `registerAction` tests for the keys `name`, `confirmPassword` and `terms` at run time. Here a value either is register values, with all three keys, or login values, with none of them.
- Concurrent registrations: the model is sequential.
