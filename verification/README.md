# Session, route guard and form engine of the React demo client

This project models the client-side session and form machinery of a small
React demo application, together with proofs about it. The machinery is:

- the persisted session store and simulated login service (`authApi`);
- the session manager (`AuthProvider`), with its bootstrap, `login` and `logout`;
- the route guard (`ProtectedRoute`);
- the generic form engine (`useForm`);
- the validators and submit callbacks of the login and contact pages.

Every component is an immutable record with pure transitions. Async steps
are split in two at their await: `BeginSubmit`/`EndSubmit` for the form
engine and `LoginBegin`/`LoginEnd` for the session manager. This lets the
`finally` blocks be stated directly.

Modules, one per source file plus two helpers:

| module | file | models |
|---|---|---|
| `Types` | types.dfy | `User`, `ApiResponse`, `ContactFormData`, plus `Option`/`Outcome`/`Settled` for `null`, rejected promises and settled service calls |
| `JsStrings` | js_strings.dfy | the JavaScript built-ins the validators use: `trim`, `split(sep)[0]` and the UTF-16 `length` |
| `AuthApi` | auth_api.dfy | `authApi` over an abstract two-key store |
| `AuthContext` | auth_context.dfy | `AuthProvider` |
| `RouteGuard` | route_guard.dfy | `ProtectedRoute` as a three-way decision |
| `UseForm` | use_form.dfy | `useForm`, plus event sequences and their replay |
| `FieldRules` | field_rules.dfy | the required/email checks both pages share |
| `LoginPage` | login_page.dfy | the login validator, return target, submit outcome and already-signed-in redirect |
| `ContactPage` | contact_page.dfy | the contact validator and submit outcome |
| `Scenarios` | scenarios.dfy | the components together: guard → login → return, and the end-to-end form runs |

Behaviours of the code worth noting, all modelled as written:

- `setFieldValue` does not clear the field's error, unlike `handleChange`.
- A submit that passes validation leaves `errors` as they were. It does not clear them.
- `handleChange` clears an error only when it is truthy, that is present and non-empty.
- `reset` restores the initial values passed on the render whose `reset` is called, not those of the first render.
- Password and message lengths are JavaScript `length`, counted in UTF-16 code units. A character above U+FFFF counts twice.

Interfaces the model turns into parameters or inputs:

- `isValidEmail` from `utils/helpers` is not part of this model. The validators take it as a parameter `isValidEmail: string -> bool`.
- How an awaited service call settled is an input (`Types.Settled`): a response, or a rejection with its message. The session manager's `LoginEnd` and the contact page's `OnSubmitSettled` take one.
- The initial values a render passes to `useForm` are a parameter of `UseForm.Reset`.
- The result of `login` as the login page sees it is an input (`Outcome`).

## Model

| member | source | states |
|---|---|---|
| `UseForm.Create` | src/hooks/useForm.ts:32-34 | a fresh form holds the first render's initial values, no errors, and is not submitting |
| `UseForm.HandleChange` | src/hooks/useForm.ts:36-46 | the changed field takes the new value and every other field keeps its value; a shown error on that field is removed, every other error is kept; an error that was not shown (absent or empty) is left alone |
| `UseForm.SetFieldValue` | src/hooks/useForm.ts:48-50 | only the named field's value changes; errors (including that field's) and the submitting flag are untouched |
| `UseForm.BeginSubmit` | src/hooks/useForm.ts:52-65 | rejected exactly when a validator is given and its result has a key; then errors are replaced wholesale by that result, no submission starts and the submitting flag does not change; otherwise the form enters the submitting state, `onSubmit` gets exactly the current values, and errors are kept; values never change |
| `UseForm.EndSubmit` | src/hooks/useForm.ts:66-70 | on either outcome of `onSubmit` the form leaves the submitting state, nothing else changes, and the outcome is passed through unchanged |
| `UseForm.Reset` | src/hooks/useForm.ts:75-78 | values become the initial values the caller passes on the current render, errors are emptied, the submitting flag is kept |
| `UseForm.SubmitCycle` | src/hooks/useForm.ts:57-70 | a submission that passes validation takes the flag false → true → false, whether `onSubmit` succeeds or fails, and returns the form to where it started |
| `UseForm.RunValues` | src/hooks/useForm.ts:36-78 | after any event sequence, each field holds the last value written to it since the last reset, or its value in the initial values that reset restored when the reset came later, or its starting value when untouched; submission events never change a value |
| `UseForm.RunErrorsStayCleared` | src/hooks/useForm.ts:41-43 | once a field is edited by a change event, or the form is reset, no error shows on that field until the next submit, whatever else is edited or set in between |
| `UseForm.RunKeepsKeys` | src/hooks/useForm.ts:39-49 | a set of fields present at the start stays present through any event sequence whose resets all restore initial values holding those fields, so the page validators never read a missing field |
| `AuthContext.Initial` | src/context/AuthContext.tsx:30-31 | before bootstrap there is no user and loading is on |
| `AuthContext.Value` | src/context/AuthContext.tsx:63-69 | `isAuthenticated` is true exactly when a user is present |
| `AuthContext.Bootstrap` | src/context/AuthContext.tsx:34-40 | the stored user is adopted only when the store holds both a user and a non-empty token, otherwise the user is unchanged; loading ends either way |
| `AuthContext.LoginBegin` | src/context/AuthContext.tsx:43-46 | loading starts; the user is untouched while the call is in flight |
| `AuthContext.LoginEnd` | src/context/AuthContext.tsx:46-54 | a successful response installs its user and resolves; a failed one keeps the previous user and rejects with the response error, or "Login failed" when that is missing or empty; a rejected service call keeps the previous user and rejects with its error; loading ends on every path |
| `AuthContext.Login` | src/context/AuthContext.tsx:43-55 | against the demo service, login always resolves and authenticates a user with the given email, persists a session holding the same user, and ends loading |
| `AuthContext.Logout` | src/context/AuthContext.tsx:58-61 | the user is cleared, both store keys are removed, loading is untouched |
| `AuthContext.LogoutIdempotent` | src/context/AuthContext.tsx:58-61 | logging out twice gives the same state as logging out once |
| `AuthContext.BootstrapEstablishesConsistency` | src/context/AuthContext.tsx:34-40 | after bootstrap from any store, even a half-written one, the provider is authenticated exactly when the store holds a session, with the same user |
| `AuthContext.StepsPreserveConsistency` | src/context/AuthContext.tsx:43-61 | a completed login and a logout each leave the provider and the store in agreement |
| `AuthContext.FailedLoginPreservesConsistency` | src/context/AuthContext.tsx:43-54 | a login that fails, by a failed response or by the service call rejecting, rejects and leaves the provider and the store in agreement |
| `AuthContext.LoginSurvivesRestart` | src/context/AuthContext.tsx:34-55 | bootstrapping a fresh provider from the store a login wrote recovers the same user |
| `AuthApi.NameFromEmail` | src/services/api.ts:58 | the name is a prefix of the email with no `@`, ending at the first `@` or at the end of the email |
| `AuthApi.BuildUser` | src/services/api.ts:56-61 | the user has id "1", the given email, role `user`, no avatar, and the derived name |
| `AuthApi.Login` | src/services/api.ts:51-68 | always a successful response carrying the built user, with message "Login successful!"; the store then holds that user and the token "demo-token-12345" |
| `AuthApi.Logout` | src/services/api.ts:73-76 | both keys are absent afterwards, whatever was stored before |
| `AuthApi.GetCurrentUser` | src/services/api.ts:81-84 | no user is returned exactly when the user key is absent, and a returned user is the stored one |
| `AuthApi.IsAuthenticatedIffToken` | src/services/api.ts:89-91 | authenticated exactly when the token key holds a non-empty string |
| `AuthApi.LoginRoundTrip` | src/services/api.ts:56-91 | after `login(e, p)` the store reports a user with email `e` and the derived name, and reports itself authenticated |
| `AuthApi.LogoutClears` | src/services/api.ts:73-91 | after `logout` no user is reported, the store is not authenticated, and a second logout changes nothing |
| `AuthApi.LoginReplacesUser` | src/services/api.ts:56-65 | the store after a login depends only on the email, not on what it held before or on the password |
| `RouteGuard.Decide` | src/components/layout/ProtectedRoute.tsx:22-32 | exactly one of three outcomes: loading whenever loading, whatever the auth flag; a replacing redirect to "/login" carrying the current location when loaded but signed out; the children when loaded and signed in |
| `RouteGuard.Guard` | src/components/layout/ProtectedRoute.tsx:17-33 | the guard fed from the provider state makes the same three-way decision from loading and user presence |
| `RouteGuard.GuardReadsOnlyFlags` | src/components/layout/ProtectedRoute.tsx:18 | sessions with the same loading and authenticated flags get the same decision |
| `RouteGuard.NoRedirectBeforeBootstrap` | src/components/layout/ProtectedRoute.tsx:22-24 | before bootstrap the guard shows loading and never redirects |
| `JsStrings.TrimEmptyIffBlank` | src/pages/Login/LoginPage.tsx:45 | `!s.trim()` holds exactly when every character of `s` is JavaScript whitespace |
| `JsStrings.PrefixBeforeUnique` | src/services/api.ts:58 | `split('@')[0]` is the only prefix free of `@` that ends at the first `@` or the end of the string |
| `JsStrings.Utf16Length` | src/pages/Login/LoginPage.tsx:53 | the JavaScript length lies between the character count and twice that, and equals the character count when no character lies above U+FFFF |
| `FieldRules.Required` | src/pages/Contact/ContactPage.tsx:33-35 | the check fails, with the given message, exactly when the value is all JavaScript whitespace (empty included) |
| `FieldRules.RequiredIsTrimCheck` | src/pages/Contact/ContactPage.tsx:33 | the required check fails exactly when `value.trim()` is the empty string, and then yields its message |
| `FieldRules.Email` | src/pages/Login/LoginPage.tsx:45-49 | a blank email gives "Email is required", a non-blank invalid one gives "Please enter a valid email", and there is no message exactly when it is non-blank and valid |
| `LoginPage.PasswordCheck` | src/pages/Login/LoginPage.tsx:51-55 | an empty password gives "Password is required", a length of 1 to 5 UTF-16 code units gives "Password must be at least 6 characters", and there is no message exactly when the length is at least 6 |
| `LoginPage.Validate` | src/pages/Login/LoginPage.tsx:42-57 | the map has only email and password keys; email as the shared email rule; "Password is required" for an empty password, "Password must be at least 6 characters" for length 1 to 5, and no password key exactly when the length is at least 6 |
| `LoginPage.BothEmpty` | src/pages/Login/LoginPage.tsx:42-57 | both fields empty gives exactly the two "required" messages |
| `LoginPage.ValidateEmptyIff` | src/pages/Login/LoginPage.tsx:42-57 | no errors exactly when the email is non-blank and valid and the password has at least 6 code units |
| `LoginPage.ReturnTarget` | src/pages/Login/LoginPage.tsx:29 | the recorded `from.pathname` when present and non-empty, "/dashboard" otherwise; never empty |
| `LoginPage.RedirectIfAuthenticated` | src/pages/Login/LoginPage.tsx:32-34 | a signed-in visitor is sent to the return target, replacing the history entry; a signed-out one is not sent anywhere |
| `LoginPage.OnSubmitBegin` | src/pages/Login/LoginPage.tsx:60 | the banner is cleared before login runs |
| `LoginPage.OnSubmitSettled` | src/pages/Login/LoginPage.tsx:61-66 | on success navigate to the return target with replace; on failure show "Login failed. Please check your credentials." and do not navigate |
| `LoginPage.InitialValues` | src/pages/Login/LoginPage.tsx:38-41 | two empty fields, email and password |
| `LoginPage.Initial` | src/pages/Login/LoginPage.tsx:26-41 | the page as first rendered: a fresh form over the two empty fields and no banner |
| `ContactPage.InitialValues` | src/pages/Contact/ContactPage.tsx:24-29 | four empty fields: name, email, subject and message |
| `ContactPage.Initial` | src/pages/Contact/ContactPage.tsx:18-29 | the page as first rendered: a fresh form over the four empty fields, status idle and an empty status message |
| `ContactPage.MessageCheck` | src/pages/Contact/ContactPage.tsx:47-51 | a blank message gives "Message is required"; otherwise fewer than 10 code units (untrimmed) gives "Message must be at least 10 characters"; no message exactly when neither applies |
| `ContactPage.Validate` | src/pages/Contact/ContactPage.tsx:30-54 | one key per failing field with its first failing rule's message: "Name is required" and "Subject is required" exactly for blank fields, the shared email rule, and the message rule |
| `ContactPage.ValidateEmptyIff` | src/pages/Contact/ContactPage.tsx:30-54 | the map is empty exactly when all four fields are valid |
| `ContactPage.OnSubmitSettled` | src/pages/Contact/ContactPage.tsx:55-68 | a successful response shows its message, or "Message sent successfully!", and resets the form to the four empty fields; a failed response or a rejected call shows "Failed to send message. Please try again." and keeps the values |
| `Scenarios.SubmitLogin` | src/pages/Login/LoginPage.tsx:59-67 | a login submit that fails validation records the errors and touches neither session nor store; one that passes authenticates the typed email, persists the session, clears the banner, navigates to the return target and leaves the submitting state |
| `Scenarios.RedirectCarriesReturnTarget` | src/components/layout/ProtectedRoute.tsx:29 | the guard's redirect from a non-empty path makes the login page return to that path, and to "/dashboard" otherwise |
| `Scenarios.GuardLoginReturnRoundTrip` | src/pages/Login/LoginPage.tsx:29-67 | a signed-out visitor to path `p` is redirected, logs in with valid credentials, is sent back to `p`, and the guard now renders it |
| `Scenarios.EmptyLoginRejected` | src/hooks/useForm.ts:57-62 | submitting the empty login form is rejected with exactly the two "required" messages and never enters the submitting state |
| `Scenarios.FilledLoginSubmitted` | src/hooks/useForm.ts:36-67 | after typing "a@b.com" and "secret1", submitting passes exactly those two fields to `onSubmit` |
| `Scenarios.LoginFormScenario` | src/hooks/useForm.ts:36-70 | the two steps above in sequence on one form |
| `Scenarios.ContactSuccessResets` | src/pages/Contact/ContactPage.tsx:55-61 | a valid contact form that the service accepts goes through submission and ends reset to four empty fields, with no errors, not submitting, and status success |
| `Scenarios.EmptyContactRejected` | src/pages/Contact/ContactPage.tsx:30-54 | submitting the contact page as first rendered is rejected with exactly the four "required" messages, keeps the empty values and never enters the submitting state |
| `Scenarios.ContactFailureKeepsValues` | src/pages/Contact/ContactPage.tsx:62-68 | a failed contact submission keeps the typed values, shows the failure banner, and still leaves the submitting state |
| `Scenarios.LogoutThenGuardRedirects` | src/context/AuthContext.tsx:58-61 | after logout the guard redirects to "/login" again |

## Left out

- Rendering (JSX, CSS, `Loading`, `Navigate` as elements): the guard returns a decision value and navigation is a returned request.
- `fetchApi`, `dataApi` and `contactApi.submit`: network, `sleep`, `Date.now` and logging are I/O. The contact service's settled result is an input.
- JSON serialisation and `localStorage`: the store is an abstract record holding `User` values. So `getCurrentUser`'s `stored ? JSON.parse(stored) : null` is not modelled on raw strings, and an empty or malformed `user` entry is not modelled.
- AuthContext.Login: composes the steps with the demo service, which always resolves successfully. The provider's failure paths, a failed response and a rejected call, are stated on `AuthContext.LoginEnd`, whose input is any settled call.
- Delays and scheduling: the model has no interleaving of overlapping `login` calls or double submissions. These are last-write-wins races, and each async call is modelled as its own begin and end steps.
- React hook mechanics: the `useCallback` closures read the last render's `errors`/`values` and may be stale; the model uses the current state. Also left out: `preventDefault`, `navigate` being called during render, and `useAuth` throwing outside the provider.
- Clearing an error in `handleChange`: the source writes `undefined` under the field's key, while the model removes the key. Both read as `undefined`, and nothing counts the keys of the stored `errors`.
- UseForm: field values are strings. The hook's generic `T[keyof T]` is not modelled for other types.
- `isValidEmail` and `cn` from `utils/helpers`, and `useLocalStorage`, are not part of this model. `isValidEmail` is a parameter.
- The user `avatar` field is carried as an option. The demo never sets it.
