# FZScripts in Dafny

FZScripts is a site where users share scripts. An Express server keeps two tables,
`users` and `scripts`, and serves them through a JSON API. Users register and log
in with passwords held in an `scrypt` credential format. A React client validates
forms and renders scripts. This project models the server's storage, credential
format, authentication and route handlers, and the client's validators and string
helpers. It proves what each one promises.

- `wrappers.dfy`: `Option` (JavaScript's `undefined`/`null` vs. a value) and `Result` (a value, or what was thrown).
- `hex.dfy`: Node's `Buffer` hexadecimal encoding and its lenient decoding (section 8 of RFC 4648, lower case).
- `js_string.dfy`: the JavaScript string behaviour the code relies on. This covers `split`/`join` on one character, `length` in UTF-16 code units, the `\s` class, ASCII `toLowerCase`, and `parseInt` without a radix.
- `credential.dfy`: `hashPassword`'s `hex(key).hex(salt)` format and `comparePasswords`. scrypt is an oracle: any function to 64 bytes.
- `schema.dfy`: row shapes, column defaults, the user record without its password, and the two insert schemas.
- `storage.dfy`: the `DatabaseStorage` class. It holds both tables as sequences in id order, plus one serial counter per table. Its methods update the tables in place. Its invariant covers serial, ascending ids and unique usernames.
- `http.dfy`: responses as status and body. A body can only carry a user as `PublicUser`, so no response can contain a password.
- `auth.dfy`: the local strategy, session serialisation, and the register, login, logout, current-user and username-check handlers. A session is the logged-in user's id or nothing.
- `routes.dfy`: the script and user routes as early-return chains over the logged-in user, path parameter, body and store.
- `auth_page.dfy`, `create_script.dfy`, `script_page.dfy`, `script_card.dfy`, `user_profile.dfy`, `code_block.dfy`: the client pieces. These are form schemas, the username-availability and submit guards, payload construction, file extension and download name, line count, code preview, display conditions, profile statistics, and HTML escaping.

## Model

| member | source | states |
|---|---|---|
| Hex.Encode | server/storage.ts:44-46 | `toString("hex")` writes two lowercase hexadecimal digits per byte, so the text is twice as long as the bytes |
| Hex.Decode | server/auth.ts:21 | `Buffer.from(s, "hex")` decodes leading digit pairs of either case and stops at the first bad pair; the result has at most half as many bytes as the text has characters |
| Hex.DecodeEncode | server/auth.ts:21 | decoding an encoding gives back the bytes |
| Hex.EncodeInjective | server/storage.ts:46 | different byte strings have different encodings |
| JsString.Split | server/auth.ts:20 | `split` on one character gives one more piece than there are separators, and no piece contains the separator |
| JsString.JoinSplit | client/src/components/script-card.tsx:23 | joining the pieces of a split with the same separator gives back the string |
| JsString.SplitJoin | client/src/components/script-card.tsx:23 | splitting a join of separator-free pieces gives back the pieces |
| JsString.SplitAround | server/auth.ts:20 | splitting `a + sep + b`, with no separator in `a`, gives `a` followed by the pieces of `b` |
| JsString.SplitWithoutSeparator | server/auth.ts:20 | a string without the separator splits into itself alone |
| JsString.Join | client/src/components/script-card.tsx:23 | `join` starts with the first piece, followed by the separator when there is a second |
| JsString.Count | client/src/pages/script-page.tsx:215 | the number of occurrences of a character is at most the length |
| JsString.JoinPrefix | client/src/components/script-card.tsx:23 | the join of the first k pieces is a prefix of the join of all of them |
| JsString.CountJoin | client/src/components/script-card.tsx:23 | joining n separator-free pieces writes exactly n - 1 separators |
| JsString.JsLength | client/src/pages/auth-page.tsx:44-45 | `length` counts UTF-16 code units: between the number of characters and twice that |
| JsString.JsLengthInBmp | client/src/pages/auth-page.tsx:50-53 | without characters beyond the Basic Multilingual Plane, `length` is the number of characters |
| JsString.AsciiLower | client/src/pages/create-script.tsx:118 | `toLowerCase` on ASCII: keeps the length; each ASCII capital goes 32 code points up, to its lower-case letter, and every other character stays (non-ASCII case mapping is left out) |
| JsString.TrimStart | server/routes.ts:25 | `parseInt` skips a whitespace prefix: the result is a suffix that does not start with whitespace |
| JsString.TrimStartDropsOnlyWhitespace | server/routes.ts:25 | every character `TrimStart` removes is whitespace, so only the leading whitespace goes |
| JsString.DigitPrefix | server/routes.ts:25 | `parseInt` reads the longest run of digits: a prefix, all digits, followed by a non-digit or the end |
| JsString.NoDigitIsNaN | server/routes.ts:25-28 | text with no decimal digit parses to NaN, which the routes answer with 400 |
| JsString.ParseInt | server/routes.ts:25 | whitespace only, or nothing, parses to NaN; a negative result needs a '-' right after the whitespace |
| JsString.ParseSigned | server/routes.ts:25 | after the whitespace: no text is NaN, and only a leading '-' makes the number negative |
| JsString.ParseMagnitude | server/routes.ts:25 | after the sign: no text is NaN |
| JsString.ParseIntOfNumeral | server/routes.ts:25 | a decimal numeral without a leading zero parses to its value |
| JsString.ParseIntOfNegativeNumeral | server/routes.ts:25 | '-' and a decimal numeral parse to the value negated |
| JsString.ParseIntOfDecimal | server/routes.ts:25 | the decimal text of any integer parses back to that integer |
| Credential.HashPassword | server/storage.ts:43-47 | the stored form has 161 characters and splits on "." into exactly the hex key and the hex salt |
| Credential.TimingSafeEqual | server/auth.ts:23 | throws exactly when the lengths differ, otherwise tells whether the bytes are equal |
| Credential.CompareOrThrow | server/auth.ts:19-27 | throws exactly when the stored form has no "." or its hash does not decode to 64 bytes; otherwise true exactly when the decoded hash equals the key derived from the supplied password and the salt text |
| Credential.ComparePasswords | server/auth.ts:18-28 | true exactly when the stored form has a "." and its decoded hash equals the key derived from the supplied password and the salt text; anything thrown becomes false |
| Credential.SplitRecoversParts | server/auth.ts:20-22 | splitting a stored form recovers exactly the key and the salt text that `hashPassword` joined |
| Credential.HashThenCompare | server/auth.ts:18-23 | a password always matches the credential hashed from it |
| Credential.OtherPasswordRejected | server/auth.ts:22-23 | another password matches only if the oracle derives the same key from it |
| Credential.MalformedIsFalse | server/auth.ts:23-27 | the comparison throws exactly when the form lacks a "." or its hash does not decode to 64 bytes, and then the answer is false |
| Credential.NoDotNeverMatches | server/auth.ts:20-27 | a stored form without "." never matches |
| Schema.StripPassword | server/auth.ts:98 | removing the password loses nothing else: putting it back restores the user |
| Schema.StripPasswordKeepsTheRest | server/routes.ts:136 | two users with the same public record differ at most in their password |
| Schema.ParseInsertUser | shared/schema.ts:28-32 | accepts exactly when username and password are present, and keeps only those and the profile picture |
| Schema.ParseInsertScript | shared/schema.ts:34-41 | accepts exactly when the five text columns and userId are present, and keeps only those |
| Schema.ScriptRow | shared/schema.ts:23-24 | a stored new script has downloads 0 and rating 0 |
| Storage.ApplyPatch | server/storage.ts:175-187 | an update keeps the id; each of username, password, verified, profilePicture and isAdmin takes the given value when one is given and keeps the old one otherwise; an empty update changes nothing |
| Storage.IndexWhere | server/storage.ts:133 | the first row that matches, or none matches |
| Storage.Filter | server/storage.ts:225-228 | a row is in the result exactly when it is in the table and satisfies the condition |
| Storage.FindUser | server/storage.ts:131-139 | the user with this id, or no user has it |
| Storage.FindUserByName | server/storage.ts:141-152 | the user with this username, or no user has it |
| Storage.FindScript | server/storage.ts:210-221 | the script with this id, or no script has it |
| Storage.FindUserById | server/auth.ts:69-77 | with serial ids, looking up a stored user's id finds that very user |
| Storage.FindAppendedUser | server/storage.ts:159-167 | a user inserted under a free username is the one that username then finds |
| Storage.AtMostOneAdmin | server/storage.ts:165 | with unique usernames and only "Faze" an admin, there is at most one admin |
| Storage.CreatedUserRow | server/storage.ts:161-166 | the new user is verified and admin exactly when its username is "Faze", and for any other name both flags take their defaults |
| Storage.DatabaseStorage.constructor | server/storage.ts:33-41 | a new store has empty tables and both serial sequences at 1 |
| Storage.DatabaseStorage.GetUser | server/storage.ts:131-139 | returns the user with the id, or none, and changes nothing |
| Storage.DatabaseStorage.GetUserByUsername | server/storage.ts:141-152 | returns the user with the username, or none, and changes nothing |
| Storage.DatabaseStorage.InsertUserRow | shared/schema.ts:6-11 | appends the row under the next serial id, with defaults filled in, or refuses a taken username and changes nothing |
| Storage.DatabaseStorage.CreateUser | server/storage.ts:154-173 | stores `hashPassword`'s output and never the password, sets both flags exactly for "Faze", and keeps "Faze" the only possible admin |
| Storage.DatabaseStorage.UpdateUser | server/storage.ts:175-187 | changes the given columns of the user with the id and nothing else; returns none and changes nothing for an unknown id or a taken username |
| Storage.DatabaseStorage.UpdateUserVerification | server/storage.ts:189-191 | changes only `verified` of the user with the id; returns none and changes nothing for an unknown id |
| Storage.DatabaseStorage.UpdateUserProfilePicture | server/storage.ts:193-195 | changes only `profilePicture` of the user with the id; returns none and changes nothing for an unknown id |
| Storage.DatabaseStorage.GetScripts | server/storage.ts:197-208 | returns every script, ascending by id |
| Storage.DatabaseStorage.GetScriptById | server/storage.ts:210-221 | returns the script with the id, or none, and changes nothing |
| Storage.DatabaseStorage.GetScriptsByUserId | server/storage.ts:223-234 | returns exactly the user's scripts, and an empty list when there are none |
| Storage.DatabaseStorage.CreateScript | server/storage.ts:236-247 | appends the script under the next serial id with downloads and rating 0 |
| Storage.DatabaseStorage.UpdateScriptDownloads | server/storage.ts:249-267 | sets downloads to the old value (null as 0) plus one, changes no other field or script, and returns the record; an unknown id returns none and changes nothing |
| Storage.DatabaseStorage.InitializeDatabase | server/storage.ts:49-129 | with a "Faze" user present, changes nothing; otherwise adds exactly that verified admin with password "fzx" and an empty picture, and one sample script it owns; afterwards "Faze" exists, so a second run changes nothing |
| Auth.SerializeUser | server/auth.ts:69 | the session keeps the user's id |
| Auth.DeserializeUser | server/auth.ts:70-77 | the user whose id the session holds, or none when the session is empty or the id is unknown |
| Auth.Authenticate | server/auth.ts:49-67 | succeeds exactly when both fields are non-empty, a user has the username and the password matches its credential; an unknown name and a wrong password fail with the same message |
| Auth.VerifyCredentials | server/auth.ts:50-62 | the strategy run against the store gives `Authenticate`'s verdict and changes nothing |
| Auth.Register | server/auth.ts:79-108 | 400 for a missing or empty username or password and 400 for a taken name, both with no change to the tables or the id counters; otherwise exactly one new user under the next user id, which then advances by one, with picture defaulting to "", 201 with the record without password, and a session for that user; scripts and the script counter never change |
| Auth.RegisterThenLogin | server/auth.ts:79-127 | right after registering, logging in with the same credentials succeeds and returns the same record; its session restores a stored user with that username whose public record is the one registration answered with |
| Auth.Login | server/auth.ts:110-127 | 401 with the strategy's message and the session untouched, or 200 with the user without password and a session for it |
| Auth.Logout | server/auth.ts:129-134 | 200 and no session |
| Auth.CurrentUser | server/auth.ts:136-142 | 401 exactly when nobody is logged in, otherwise that user without password |
| Auth.CheckUsername | server/auth.ts:144-157 | 400 exactly for a missing or empty name; otherwise `available` is true exactly when no user has the name; reads only |
| Routes.MissingScriptFields | server/routes.ts:69-73 | the validation error lists a missing column exactly when the schema rejects the body |
| Routes.GetScripts | server/routes.ts:14-21 | 200 with every script, ascending by id; reads only |
| Routes.GetScript | server/routes.ts:23-39 | 400 for a non-numeric id, 404 for an unknown one, else 200 with the script; reads only |
| Routes.GetScriptsByUser | server/routes.ts:41-53 | 400 exactly for a non-numeric id, else 200 with exactly that user's scripts; reads only |
| Routes.CreateScript | server/routes.ts:55-76 | 401 before any validation; the owner is the caller whatever the body says; 400 with no change when a column is missing; else 201 and one stored script with downloads and rating 0 under the next script id; the script counter advances exactly on a 201, and users and the user counter never change |
| Routes.RecordDownload | server/routes.ts:78-94 | 400 for a non-numeric id and 404 for an unknown one, both with no change; else 200 with the record whose downloads went up by one (null as 0), and the scripts table changes at that script only, to that record; users and both id counters never change |
| Routes.CheckUsernameParam | server/routes.ts:98-106 | `available` is true exactly when no user has the name; reads only |
| Routes.UpdateProfilePicture | server/routes.ts:109-141 | 401, then 400 for a bad id, 403 for another user's id, 400 for an empty picture, 404; only the caller's own picture changes, scripts and both id counters never do, and the answer carries no password |
| Routes.GetUserById | server/routes.ts:144-162 | 400 for a non-numeric id, 404 for an unknown one, else the user without password; reads only |
| Routes.VerifyUser | server/routes.ts:165-197 | 401, then 403 for any non-admin even with a bad id, then 400 bad id, 400 missing status, 404; only the target's `verified` changes, to the given value; scripts and both id counters never do |
| AuthPage.LoginFormAccepts | client/src/pages/auth-page.tsx:43-46 | accepts exactly a non-empty username and a non-empty password |
| AuthPage.UsernameAccepted | client/src/pages/auth-page.tsx:50-53 | accepts exactly 3 to 20 characters, each a letter, digit or underscore |
| AuthPage.RegisterFormAccepts | client/src/pages/auth-page.tsx:49-60 | an accepted registration has equal password and confirmation, a non-empty username and a password of at least 3 characters; within the Basic Multilingual Plane it accepts exactly a 3 to 20 character name of letters, digits and underscores and a confirmed password of at least 6 characters |
| AuthPage.PasswordAccepted | client/src/pages/auth-page.tsx:54-60 | requires the password to equal its confirmation and be at least 6 code units long; within the Basic Multilingual Plane that is exactly 6 characters or more |
| AuthPage.AcceptedFormPassesServerCheck | client/src/pages/auth-page.tsx:49-60 | a registration the form accepts passes the server's required-field check |
| AuthPage.AuthPageState.constructor | client/src/pages/auth-page.tsx:32-33 | availability starts unknown and no check is running |
| AuthPage.AuthPageState.HandleUsernameChange | client/src/pages/auth-page.tsx:82-92 | under 3 code units, availability becomes unknown and the server is not asked; otherwise it becomes the server's answer |
| AuthPage.AuthPageState.OnRegisterSubmit | client/src/pages/auth-page.tsx:100-111 | sends exactly when availability is known to be true, then without `confirmPassword`; otherwise marks the name as taken |
| CreateScriptPage.WithinLength | client/src/pages/create-script.tsx:42-53 | a `.min().max()` rule in code units; within the Basic Multilingual Plane exactly the character range |
| CreateScriptPage.ScriptFormAccepts | client/src/pages/create-script.tsx:41-56 | within the Basic Multilingual Plane, accepts exactly a title of 5 to 100 characters, a description of 20 to 1000, code of 10 to 50000, and a non-empty language and category |
| CreateScriptPage.AcceptedFormBounds | client/src/pages/create-script.tsx:41-56 | whatever the characters, an accepted form has a title of 3 to 100 characters, a description of 10 to 1000 and code of 5 to 50000 (half the code-unit minimums, since one character can take two code units), and a non-empty language and category |
| CreateScriptPage.BuildPayload | client/src/pages/create-script.tsx:79-87 | fails before any request without a user; otherwise the server's schema accepts the payload as the form values owned by the user, with no id, downloads or rating |
| CreateScriptPage.ServerStoresFormValues | client/src/pages/create-script.tsx:82-87 | after the server overrides `userId` with the caller's id, the stored values are the form's |
| CreateScriptPage.CreateScriptForm.constructor | client/src/pages/create-script.tsx:64-65 | the preview starts with empty code and "javascript" |
| CreateScriptPage.CreateScriptForm.HandleCodeChange | client/src/pages/create-script.tsx:111-114 | the field and the preview take the code |
| CreateScriptPage.CreateScriptForm.HandleLanguageChange | client/src/pages/create-script.tsx:116-119 | the field takes the language and the preview its lower-case form, so the preview language stays lower case |
| ScriptPage.ExtensionFor | client/src/pages/script-page.tsx:68-81 | the record has an entry exactly for the twelve listed languages |
| ScriptPage.ExtensionsArePlain | client/src/pages/script-page.tsx:68-83 | no extension is empty or holds whitespace or "." |
| ScriptPage.FileExtension | client/src/pages/script-page.tsx:67-84 | corrected, see Findings: a listed language, in any case, gets its extension; any other gets "txt" |
| ScriptPage.FileExtensionIgnoresCase | client/src/pages/script-page.tsx:83 | languages equal up to case get the same extension |
| ScriptPage.SeedLanguageGetsTxt | client/src/pages/script-page.tsx:83 | the seeded language "lua" gets "txt" |
| ScriptPage.JavaScriptGetsJs | client/src/pages/script-page.tsx:69 | the lookup ignores case: "JavaScript" gets "js" like "javascript" |
| ScriptPage.RecordLookupAsWritten | client/src/pages/script-page.tsx:83 | the object lookup agrees with the record on listed languages |
| ScriptPage.AsWrittenAgreesOffPrototype | client/src/pages/script-page.tsx:83 | away from "constructor" and "__proto__", the lookup as written and the table lookup agree |
| ScriptPage.FileExtensionAsWritten | client/src/pages/script-page.tsx:83 | as written: never empty, and a listed language gets its extension as in `FileExtension` |
| ScriptPage.CollapseWhitespace | client/src/pages/script-page.tsx:55 | the result holds no whitespace and is no longer than the title |
| ScriptPage.CollapseKeepsPlainTitle | client/src/pages/script-page.tsx:55 | a title without whitespace is kept as it is |
| ScriptPage.CollapseRun | client/src/pages/script-page.tsx:55 | a whole run of whitespace after a word becomes a single "-" |
| ScriptPage.DownloadFilename | client/src/pages/script-page.tsx:55 | corrected, see Findings: the file name holds no whitespace and ends in "." and the extension |
| ScriptPage.DownloadFilenameAsWritten | client/src/pages/script-page.tsx:55 | as written: wherever the lookup as written gives the corrected extension, the file name is the corrected one |
| ScriptPage.ConstructorExtension | client/src/pages/script-page.tsx:83 | as written, the language "Constructor" is looked up as the inherited `constructor` property, not as "txt" |
| ScriptPage.ConstructorLanguageBreaksFilename | client/src/pages/script-page.tsx:55 | as written, the language "Constructor" puts a space into the file name |
| ScriptPage.LineCount | client/src/pages/script-page.tsx:215 | the line count is the number of line breaks plus one |
| ScriptPage.HandleDownload | client/src/pages/script-page.tsx:45-65 | corrected, see Findings: nothing happens before the script loads; otherwise the code is saved under `DownloadFilename` and that script's download is recorded |
| ScriptCard.PreviewCode | client/src/components/script-card.tsx:23 | the preview is a prefix of the code |
| ScriptCard.PreviewIsFirstLines | client/src/components/script-card.tsx:23 | the preview splits into the first min(6, n) lines, is a prefix of the code, and holds at most 5 line breaks |
| ScriptCard.ShortCodeShownWhole | client/src/components/script-card.tsx:23 | code of at most six lines is previewed whole |
| ScriptCard.ShowRating | client/src/components/script-card.tsx:86-91 | the badge shows exactly when the rating is present and positive |
| ScriptCard.NewScriptShowsNoRating | client/src/components/script-card.tsx:86 | a newly stored script shows no rating badge |
| ScriptCard.ShowAuthorBlock | client/src/components/script-card.tsx:16-28 | the author block shows exactly when `showAuthor` is not false (it defaults to true) and the author has loaded |
| UserProfile.ScriptCount | client/src/pages/user-profile.tsx:208 | the number of scripts, 0 when the list is absent |
| UserProfile.SumDownloads | client/src/pages/user-profile.tsx:214 | with no negative count, the sum of downloads (null as 0) is not negative |
| UserProfile.FoldDownloads | client/src/pages/user-profile.tsx:214 | the `reduce` fold adds the sum of downloads (null as 0) to its start value |
| UserProfile.TotalDownloads | client/src/pages/user-profile.tsx:214 | the sum of downloads, 0 for an absent or empty list |
| UserProfile.SumDownloadsAppend | client/src/pages/user-profile.tsx:214 | the total over two lists is the sum of their totals |
| UserProfile.SumDownloadsBounds | client/src/pages/user-profile.tsx:214 | with no negative count, the total is at least each script's count |
| UserProfile.OneMoreDownload | client/src/pages/user-profile.tsx:214 | one more download of one script raises the total by exactly one |
| UserProfile.IsOwnProfile | client/src/pages/user-profile.tsx:136 | true exactly when both users are present and their ids are equal |
| UserProfile.HandleUpload | client/src/pages/user-profile.tsx:47-58 | an empty URL sends nothing; any other URL is sent unchanged |
| UserProfile.ShowEmptyState | client/src/pages/user-profile.tsx:239 | the empty state shows exactly when the script count is 0 |
| CodeBlock.ReplaceAll | client/src/components/code-block.tsx:44-47 | a global replacement leaves no occurrence of the character when the replacement has none, and never shortens the text when the replacement is not empty |
| CodeBlock.ReplaceAllAppend | client/src/components/code-block.tsx:44-47 | a global replacement distributes over concatenation |
| CodeBlock.EscapeHtml | client/src/components/code-block.tsx:44-47 | the escaped text holds no ">" and is at least as long as the code |
| CodeBlock.EscapeSingle | client/src/components/code-block.tsx:44-47 | on one character the chained passes write that character's entity |
| CodeBlock.EscapeChar | client/src/components/code-block.tsx:44-47 | one character's escape holds no angle bracket, and characters other than `&<>` stand for themselves |
| CodeBlock.ChainIsCharByChar | client/src/components/code-block.tsx:44-47 | the three chained global replacements escape each character on its own |
| CodeBlock.NoAngleBrackets | client/src/components/code-block.tsx:44-47 | escaped text holds no "<" and no ">" and is at least as long as the code |
| CodeBlock.NothingToEscape | client/src/components/code-block.tsx:44-47 | text without `&`, `<` and `>` is unchanged |
| CodeBlock.LessThanEscapedOnce | client/src/components/code-block.tsx:44-47 | "<" becomes exactly "&lt;", never "&amp;lt;" |
| CodeBlock.EscapeDistributes | client/src/components/code-block.tsx:44-47 | escaping distributes over concatenation |
| CodeBlock.UnescapeEntity | client/src/components/code-block.tsx:44-47 | each entity, and each character needing none, reads back as that one character |
| CodeBlock.UnescapeEscape | client/src/components/code-block.tsx:44-47 | reading the entities back gives the original code, so escaping loses nothing |

## Left out

- scrypt (RFC 7914) and `randomBytes` are oracles. The key function is any function to 64 bytes, and the salt is a parameter. The constant-time property of `timingSafeEqual` is not expressible here.
- Postgres, drizzle, the connection pool and the session store are replaced by the in-memory tables and a `Session` value. `server/db.ts` is not part of this model. The `catch` blocks that turn a database failure into `undefined`, `[]` or a 500 answer are not modelled, except register's 500 on a refused insert.
- Storage.DatabaseStorage.UpdateScriptDownloads: modelled sequentially; the lost update between concurrent read-then-write requests is not captured.
- Storage.DatabaseStorage.GetScriptsByUserId: the query has no `ORDER BY`. The model returns table order and its contract promises only membership, matching what the source guarantees.
- Storage.DatabaseStorage.InsertUserRow: a refused insert does not consume a serial value in the model, although Postgres does. Ids stay fresh and ascending either way.
- Storage.DatabaseStorage.UpdateUser: drizzle's refusal of an empty update is not modelled; no route sends one.
- `createdAt` timestamps, `formatDistanceToNow` and every clock reading are left out.
- The regular-expression highlighting passes and the copy-to-clipboard timer in `code-block.tsx` are left out. Only the escaping that precedes them is modelled.
- Browser and React work is left out: rendering, toasts, dialogs, navigation, `encodeURIComponent`, blob creation and DOM download. `handleDownload` is modelled as the file it produces and the count request it sends.
- The layout components, the home page and the categories section are static composition with nothing to state.
- JsString.AsciiLower: `toLowerCase` is modelled for ASCII only; Unicode case mapping of other letters is not modelled.
- JsString.ParseInt: values are exact integers. The loss of precision beyond 2^53, the 32-bit limits of Postgres `serial`/`integer`, and Infinity are not modelled.
- Routes.CreateScript: the `{ error }` body of the 400 answer is zod's message text in the source. The model gives the list of missing columns (`ValidationErrorJson`) instead; which columns make the schema reject the body is proved, the wording of the message is not modelled.
- Request bodies are modelled as optional strings or booleans. A non-string JSON value, such as a numeric username or a `null` for `verified`, is not modelled.
- AuthPage.AuthPageState.HandleUsernameChange: the server's answer is a parameter. The await, the debounce and the interleaving of overlapping checks are not modelled.
- The client's `checkUsername` hook and `apiRequest` helper are not part of this model. Their requests are modelled as the payloads the pages build.

## Findings

| source | as written | input that shows it | evidently intended | confidence | as-written member | corrected member |
|---|---|---|---|---|---|---|
| client/src/pages/script-page.tsx:83 | `extensions[language.toLowerCase()] \|\| "txt"` indexes a plain object, so inherited properties also count as entries | a script stored through POST /api/scripts with language "Constructor" (the form offers a fixed list, but the API takes any string): the lookup finds `Object`, and the file name ends in `.function Object() { [native code] }` | languages without an own entry get "txt", and the file name has no whitespace | medium, not executed | ScriptPage.ConstructorLanguageBreaksFilename | ScriptPage.DownloadFilename |
