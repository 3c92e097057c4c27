# EWU portal routine handler, modelled in Dafny

The handler in `api/index.js` is an HTTP endpoint. It takes a student's portal
credentials, signs in to the East West University portal and returns the student's
weekly class routine. To sign in it fetches the login page, solves the page's
arithmetic captcha, carries the session cookies across, and posts the login form.
It then reads the advising course list and fans each course out to the weekdays
named by the leading day codes of its time slot. Once the credentials have been read,
every failure becomes a structured JSON error with an HTTP status.

This project models that handler. The network is not modelled: what each of the
three outbound calls returns or throws is an input. The handler returns its reply
together with the trace of the calls it makes. The modules are:

- `Wrappers` (`wrappers.dfy`): `Option` and `Result`.
- `Text` (`text.dfy`): the JavaScript string operations the handler relies on:
  - `trim`, and the whitespace set of ECMAScript;
  - `split` on one character, and `join`;
  - a decimal `parseInt`;
  - ASCII `toLowerCase`;
  - `includes`.
- `Errors` (`errors.dfy`): the error reply, and the `catch` block's classification of thrown errors.
- `CredentialGate` (`credentials.dfy`): the credential check.
- `Captcha` (`captcha.dfy`): reading and solving the captcha.
- `Cookies` (`cookies.dfy`): building the cookie string from `Set-Cookie` headers.
- `Schedule` (`schedule.dfy`): splitting the time-slot name, the Lab/Theory test, and the routine.
  - The routine is a class whose per-day lists a nested loop fills in place.
- `Handler` (`handler.dfy`): the whole request.
  - It is written as an imperative sequence of early returns.
  - It reassigns the cookie string after the login.

## Model

| member | source | states |
|---|---|---|
| Text.Trim | api/index.js:61 | the result has no leading or trailing whitespace and is no longer than the input |
| Text.TrimStartDrops | api/index.js:61 | helper of `trim`, and the whitespace skip of `parseInt`: the leading-whitespace step removes exactly a run of whitespace at the front |
| Text.TrimEndDrops | api/index.js:61 | helper of `trim`: the trailing-whitespace step removes exactly a run of whitespace at the end |
| Text.TrimPadded | api/index.js:66-68 | trimming whitespace padding around an already trimmed text gives that text back |
| Text.TrimKeepsOut | api/index.js:61 | trimming never introduces a character |
| Text.Split | api/index.js:61 | splitting gives at least one piece, and no piece contains the separator |
| Text.JoinSplit | api/index.js:61 | joining the pieces of a split with the separator gives the original string back |
| Text.SplitJoin | api/index.js:61 | splitting a join of separator-free pieces gives the pieces back |
| Text.IndexOf | api/index.js:61 | the index is that of the first occurrence of the character |
| Text.ParseDigits | api/index.js:66 | a number is read exactly when the text starts with a digit |
| Text.ParseShow | api/index.js:66-68 | `parseInt` reads back any integer written in decimal, whatever non-digit text follows it |
| Text.ShowTrimmed | api/index.js:66-68 | helper for `Captcha.ReadPadded`: a decimal numeral has no surrounding whitespace |
| Text.ParseInt | api/index.js:66-68 | `parseInt` on decimal text: the result is `NaN` exactly when no digit follows the leading whitespace and an optional sign. `Text.ParseIntOf` gives the value that is read |
| Text.ParseIntOf | api/index.js:66-68 | after leading whitespace, an optional `+` or `-` and at least one digit, followed by anything but a digit, `parseInt` gives the digits' value, negated after `-` |
| Text.Lower | api/index.js:183 | `toLowerCase` keeps the length, leaves no capital ASCII letter, and changes no other character |
| Text.Contains | api/index.js:183 | `includes` holds when the text starts with the searched text, and only if the searched text is no longer. `Text.ContainsAt` characterises it fully |
| Text.Join | api/index.js:61 | joining no parts gives the empty string, and the first part starts the result. `Text.JoinSplit` and `Text.SplitJoin` relate it to `split` |
| Text.ContainsAt | api/index.js:183 | `includes` holds exactly when the text occurs at some position |
| Errors.Classify | api/index.js:206-227 | the label of the reply is determined by the kind of error: with a response, with only a request, or neither. The status is the upstream status when it is truthy, otherwise 500, and never 0. The message is the upstream body when it is truthy, then a default for responses, and the error's own message for other errors |
| CredentialGate.CheckCredentials | api/index.js:13-28 | the request is refused exactly when it is a GET lacking a non-empty query username or password, or a POST lacking either in the body. The refusal is a 400 "Missing Credentials". Otherwise a GET takes its credentials from the query and any other method from the body |
| Captcha.Apply | api/index.js:70-84 | an unreadable operand gives "Could Not Extract Captcha Numbers" whatever the operator. With both operands read, `+` gives the sum, `-` the difference, and any other operator "Captcha Operator Not Supported" |
| Captcha.Solve | api/index.js:66-84 | the captcha step: each label is trimmed and the operands read with `parseInt`. The result is "Could Not Extract Captcha Numbers" exactly when an operand does not read as a number, and a solved captcha carries the operands as read. `Captcha.Apply` states the switch and `Captcha.SolveShownChallenge` the answer |
| Captcha.SolveShownChallenge | api/index.js:66-84 | a captcha showing `x + y` or `x - y`, with any whitespace before and after the text of each of the three labels, is solved with the sum or the difference |
| Cookies.CookiePair | api/index.js:61 | the pair of a header is trimmed. `Cookies.CookiePairOf` says what it is |
| Cookies.CookiePairOf | api/index.js:61 | the pair of a header is the text before its first `;`, trimmed, or the whole header trimmed when it has no `;` |
| Cookies.PairPlain | api/index.js:61 | the pair of a header holds no `;` |
| Cookies.Pairs | api/index.js:61 | one pair per header, in header order |
| Cookies.CookieString | api/index.js:58-62 | without a `Set-Cookie` header the string is empty, with one header it is exactly that header's pair, and otherwise it starts with the first header's pair. `Cookies.CookieStringCons` fixes the `"; "` separator, `Cookies.CookiePairOf` what each pair holds, `Cookies.CookieStringRoundTrip` that the pairs can be read back in order, and `Cookies.CookieStringEmpty` when it is empty |
| Cookies.CookieStringCons | api/index.js:61 | with two or more headers, the cookie string is the first header's pair, then `"; "`, then the cookie string of the remaining headers |
| Cookies.CookieStringEmpty | api/index.js:58-62 | the cookie string is empty exactly when there is no header, the header list is empty, or a single header has an empty pair |
| Cookies.CookieStringRoundTrip | api/index.js:61 | for a non-empty header list, splitting the cookie string on `;` and trimming gives back the header pairs in order. It does not fix the separator or what a pair holds; see `Cookies.CookieStringCons` and `Cookies.CookiePairOf` |
| Cookies.TrimEach | api/index.js:61 | helper for `Cookies.CookieStringRoundTrip`, the reading side of the round trip: each piece is trimmed, in order. The source's map-and-trim is `Cookies.Pairs` and `Cookies.CookiePair` |
| Schedule.DayOf | api/index.js:160-166 | exactly the letters `M`, `S`, `W`, `T` and `R` are mapped to a day, and no letter maps to Friday or Saturday |
| Schedule.DayCodes | api/index.js:180-181 | the day codes are a prefix of the name, all capital letters, and when non-empty they are followed by whitespace. `Schedule.TimeSlotSplit` states the match exactly |
| Schedule.TimeOf | api/index.js:182 | the time is a suffix of the name, and it is the whole name exactly when there are no day codes. `Schedule.TimeSlotSplit` says which suffix |
| Schedule.CourseTypeOf | api/index.js:183 | an empty course code is Theory, and a Lab code has at least three characters. `Schedule.LabIff` states the test exactly |
| Schedule.MakeEntry | api/index.js:189-198 | a Lab entry's code has at least three characters, and its time is no longer than the time-slot name. `Schedule.EntriesOfRecord` states each field |
| Schedule.UpperRun | api/index.js:180 | the length of the leading run of capital letters |
| Schedule.TimeSlotSplit | api/index.js:180-182 | the day codes are non-empty exactly when the name starts with capital letters followed by whitespace. Then they are those letters and the time is what follows the one whitespace character. Without the prefix, the time is the whole name |
| Schedule.LabIff | api/index.js:183 | a course is a Lab exactly when its code contains `lab` in any mix of cases |
| Schedule.EntriesAreCopies | api/index.js:185-201 | a record adds copies of its one entry to a day, as many as its codes that name the day |
| Schedule.EntriesOfRecord | api/index.js:183-199 | every entry carries the record's fields unchanged, its course type, and its time with the day prefix removed |
| Schedule.WeekendEmpty | api/index.js:160-166 | no day code maps to Friday or Saturday, so those lists stay empty |
| Schedule.DayListAppend | api/index.js:178-202 | each day's list holds the entries of earlier records before those of later ones |
| Schedule.DayListSnoc | api/index.js:178-202 | processing one more record appends its entries to the end of each day's list |
| Schedule.NoPrefixNoEntries | api/index.js:180-187 | a record without a day-code prefix adds nothing to any day |
| Schedule.RoutineSizeIsCodeCount | api/index.js:178-202 | the routine holds one entry per mapped day-code character over all records |
| Schedule.CodeCountsSum | api/index.js:160-166 | every mapped code names exactly one day |
| Schedule.WeeklyJsonShape | api/index.js:168-176 | the routine has the seven keys Sunday to Saturday in that order, and its Friday and Saturday lists are empty |
| Schedule.Routine.constructor | api/index.js:168-176 | the routine starts with seven empty lists |
| Schedule.Routine.Push | api/index.js:199 | an entry is appended to one day's list and the other lists are unchanged |
| Schedule.PushCodes | api/index.js:185-201 | walking one record's codes appends its entry to each mapped day, in code order |
| Schedule.BuildRoutine | api/index.js:168-202 | the routine built in place holds, for each day, exactly the specified list, and its JSON object is the specified weekly routine |
| Handler.FormText | api/index.js:91-97 | a present credential is sent as is and an absent one as `undefined` |
| Handler.SignIn | api/index.js:90-204 | the login POST is sent first. If it throws, its error is classified. Otherwise the advising call carries the login's cookie string when the login set cookies, and the given one otherwise. The routine is the reply exactly when both calls succeed, and it equals the specified weekly routine |
| Handler.Handle | api/index.js:9-229 | the steps below, in order, each ending the request on failure. (1) Missing credentials get a 400 and no call is made. (2) A failed login-page fetch is classified. (3) An unsolvable captcha gets its error. (4) With the captcha solved, the login is abandoned exactly when the cookie string is empty, and otherwise the login POST is made. The source's test for a null answer never succeeds, because `Captcha.Apply` only succeeds with an answer; this is an assertion in the method body, not part of its contract. (5) The login form carries the credentials, the answer, both operands and the page's cookies. (6) A login that replies is always followed by the advising call. That call carries the login's cookie string when the login set cookies, and the page's otherwise. (7) The routine is the only success reply, and it is returned whenever the credentials pass, the captcha is solved, the page set a non-empty cookie string and all three calls reply. It equals the specified weekly routine |

## Left out

- The HTTP calls are not made: their responses are inputs.
  - This leaves out their request headers, redirects and `Content-Length`.
  - Their `validateStatus` gates are left out too; a status outside the gate is one way a call throws.
  - The login POST accepts status 200 to 302. Its comment names 302 and 303, but the code's bound `< 303` excludes 303.
- HTML parsing of the login page is not modelled. The three label texts are inputs; a missing label has empty text.
- The URL encoding of the login form is not modelled. The model records which five values the form carries.
- `Text.ParseInt`: models `parseInt` on decimal text only.
  - It reads leading whitespace, an optional sign and leading decimal digits; no digits gives `NaN`.
  - Not modelled: hexadecimal prefixes, numeric precision, and `-0`.
- `Text.Lower`: lower-cases ASCII letters only. Full Unicode case mapping is not modelled.
- Regular expressions are modelled by their meaning only; `\s` is the ECMAScript whitespace set.
- Logging, the response object and JSON serialisation are not modelled. The reply is a value.
- Asynchronous sequencing is not modelled: the calls run one after another.
- A request without a body is not modelled: the body is always a map. In the source, reading the credentials from a missing body throws before the error handler is set up. So a POST or other request without a body ends with an uncaught error and no JSON reply, where the model gives a POST the 400 "Missing Credentials".
- Query and body parameters are modelled as strings only. In the source a truthy non-string value, such as an array, object or number, passes the credential check and is written into the login form as text. On a POST, a falsy one such as `0` or `false` gets the 400. A method other than GET or POST has no check and sends such a value as text.
- Advising records are modelled with string fields only. In the source a non-string `TimeSlotName`, or a truthy non-string `CourseCode`, throws and is reported as "Error processing request". Other non-string fields are copied into the entries as they are. An advising response that is not a list also throws and is reported the same way.
- The upstream error body is modelled as text only. For a JSON error body the client hands the handler a parsed object, which becomes the message as it is and counts as present even when it is empty (`{}`).
- A course code is counted as a Lab only when it contains `lab`. A code such as `CSE370L`, which only ends in `L`, is Theory.
