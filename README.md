# Link-in-bio profile store and input validation, in Dafny

This project models the core of a single-page "link-in-bio" site. It covers
the profile record and its built-in default, the profile store kept in the
browser's `localStorage`, and the validators and sanitisers applied to what
the editor accepts.

- `profile_types.dfy` (module `ProfileTypes`): the `ProfileLink` and
  `ProfileData` records and `DEFAULT_PROFILE`. The email is an
  `Option<string>`, because a record read back from storage may lack it, and
  the email migration tells a missing email apart from an empty one.
- `profile_store.dfy` (module `ProfileStore`): `localStorage` as a class
  holding a `map<string, string>`. The three one-time migrations are methods
  that read and write their done flags in that storage. Each migration is
  proved against a pure step function that gives the new profile and says
  whether the flag is written. The module also holds the social-link
  clean-up, the load that runs the whole chain and writes the result back,
  and the hook as a class. Its four mutations each update the in-memory
  profile and then store it, as the hook's effect does.
- `validation.ts` becomes `validation.dfy` (module `Validation`).
  `validateUrl` and `isValidOutboundUrl` are methods that keep the source's
  early-return scan over the four unsafe schemes. They are proved against
  one verdict function. The module also models `sanitizePhoneNumber` from
  its two regular expressions, `validateEmail` from its pattern, and
  `createSafeMailtoLink`.
- `uri_encoding.dfy` (module `UriEncoding`): `encodeURIComponent` as defined
  in section 19.2.6.5 of ECMA-262 (2023 edition), over all of Unicode through
  UTF-8. It is proved injective by a decoder that inverts it.
- `strings.dfy` (module `Strings`): the JavaScript string primitives used
  above: `trim`, `toLowerCase`, `startsWith` and `includes`.

The external parts are parameters:
- `JSON.parse` together with reading the result as a profile record is a
  function `string -> Option<ProfileData>`.
- `JSON.stringify` is a function `ProfileData -> string`.
- The WHATWG URL parser behind `new URL(...)` is a function from text to its
  `protocol`, or `None` where the constructor throws.

The comment in `sanitizePhoneNumber` (validation.ts, line 60) says a `+` at
the start is kept. The regular expression on the next line does not keep it:
its second replacement deletes every `+` that has a character after it. The
model follows the code, and the discrepancy is recorded under Findings.

The Twitter/X test of the clean-up is a substring test on the lower-cased
URL. Any URL containing `x.com`, such as one on `dropbox.com` or
`netflix.com`, is therefore dropped as well. The model keeps that behaviour
as written.

## Model

| member | source | states |
|---|---|---|
| `ProfileStore.LocalStorage.constructor` | src/frontend/src/features/profile/useProfileLocalStorage.ts:133 | storage starts with exactly the given items |
| `ProfileStore.LocalStorage.SetItem` | src/frontend/src/features/profile/useProfileLocalStorage.ts:30 | `setItem` binds the key to the value and leaves every other key alone |
| `ProfileStore.SnapchatIndex` | src/frontend/src/features/profile/useProfileLocalStorage.ts:16 | `findIndex`: -1 exactly when no link has the Snapchat URL; otherwise an index whose URL is the Snapchat URL with no such link before it |
| `ProfileStore.MigrateProfileWithSnapchat` | src/frontend/src/features/profile/useProfileLocalStorage.ts:11-52 | returns the profile of the Snapchat step for the flag as stored, and changes storage only by writing that flag when the step marks it done |
| `ProfileStore.SnapchatStepWhenPresent` | src/frontend/src/features/profile/useProfileLocalStorage.ts:16-33 | with a Snapchat link present, only the first such link changes, and only its label, to "Snapchat"; the length, the other entries and the other fields stay; the flag is written exactly when that label already was "Snapchat" and the flag was not done |
| `ProfileStore.SnapchatStepWhenAbsent` | src/frontend/src/features/profile/useProfileLocalStorage.ts:35-51 | with no Snapchat link and the flag not done, exactly one Snapchat link is appended at the end and the flag is written; with the flag done, nothing changes and nothing is written |
| `ProfileStore.SnapchatStepIdempotent` | src/frontend/src/features/profile/useProfileLocalStorage.ts:11-52 | a second Snapchat step, with the flag as the first left it, returns the same profile |
| `ProfileStore.MigrateProfileWithEmail` | src/frontend/src/features/profile/useProfileLocalStorage.ts:54-78 | returns the profile of the email step for the flag as stored, and changes storage only by writing that flag when the step marks it done |
| `ProfileStore.EmailStepSpec` | src/frontend/src/features/profile/useProfileLocalStorage.ts:54-78 | a done flag leaves the profile alone and writes nothing; otherwise a missing email becomes the default address, a present one (the empty string included) is kept, no other field changes, and the flag is written |
| `ProfileStore.MigrateBioIfDefault` | src/frontend/src/features/profile/useProfileLocalStorage.ts:80-103 | returns the profile of the bio step for the flag as stored, and changes storage only by writing that flag when the step marks it done |
| `ProfileStore.BioStepSpec` | src/frontend/src/features/profile/useProfileLocalStorage.ts:80-103 | the bio becomes the current default exactly when the flag is not done and the bio equals the old default; nothing else changes; the flag is written exactly when it was not done |
| `ProfileStore.Filter` | src/frontend/src/features/profile/useProfileLocalStorage.ts:107 | `filter` keeps exactly the entries its predicate accepts, each as often as it occurs in the input, and never grows the list |
| `ProfileStore.FilterIsSublist` | src/frontend/src/features/profile/useProfileLocalStorage.ts:107-122 | what `filter` keeps is a sublist of the input, in the input's order |
| `ProfileStore.FilterIdempotent` | src/frontend/src/features/profile/useProfileLocalStorage.ts:107-122 | filtering twice with one predicate equals filtering once |
| `ProfileStore.CleanupSocialLinksSpec` | src/frontend/src/features/profile/useProfileLocalStorage.ts:105-128 | the clean-up keeps every non-link field and an order-preserving sublist of the links; a link stays, with every copy of it, exactly when its lower-cased label contains neither "twitter" nor "instagram" and its lower-cased URL contains none of "twitter.com", "x.com" and "instagram.com"; otherwise no copy stays |
| `ProfileStore.CleanupSocialLinksIdempotent` | src/frontend/src/features/profile/useProfileLocalStorage.ts:105-128 | the clean-up is idempotent |
| `ProfileStore.LoadProfile` | src/frontend/src/features/profile/useProfileLocalStorage.ts:131-153 | the initialiser returns the profile of the load function, and the storage ends as that function says |
| `ProfileStore.StorageKeysDistinct` | src/frontend/src/features/profile/useProfileLocalStorage.ts:4-7 | the profile key and the three flag keys are pairwise different, so no step overwrites another's entry |
| `ProfileStore.LoadFallsBackToDefault` | src/frontend/src/features/profile/useProfileLocalStorage.ts:133-151 | a missing, empty or unparsable stored value gives `DEFAULT_PROFILE`; no migration runs and nothing is written |
| `ProfileStore.LoadMigratesInOrder` | src/frontend/src/features/profile/useProfileLocalStorage.ts:133-146 | a stored record goes through Snapchat, email, bio and clean-up in that order, each step reading its flag as stored; the result is stored under the profile key, the email and bio flags end done, and no other key changes |
| `ProfileStore.RunMigrationsByFlags` | src/frontend/src/features/profile/useProfileLocalStorage.ts:137-141 | the chain depends on storage only through the three flags; afterwards the email and bio flags are done, the Snapchat flag is done when it was or when the step wrote it, and no other key changes |
| `ProfileStore.SnapchatStableAfterCleanup` | src/frontend/src/features/profile/useProfileLocalStorage.ts:137-141 | after the Snapchat step and the clean-up, a second Snapchat step with the flag as left changes nothing, because the clean-up keeps the Snapchat link |
| `ProfileStore.MigratedProfileIdempotent` | src/frontend/src/features/profile/useProfileLocalStorage.ts:137-141 | the chain, run on its own result with the flags it left, gives the same profile |
| `ProfileStore.MigrationChainIdempotent` | src/frontend/src/features/profile/useProfileLocalStorage.ts:137-141 | running the chain again on its own output and storage gives the same profile, and storage changes at most by the Snapchat flag becoming done |
| `ProfileStore.ReloadIsStable` | src/frontend/src/features/profile/useProfileLocalStorage.ts:131-161 | once a load has stored its result, loading again gives the same profile, when parsing inverts serialising |
| `ProfileStore.SnapchatLinkKept` | src/frontend/src/features/profile/useProfileLocalStorage.ts:105-122 | the Snapchat link passes the clean-up's predicate |
| `ProfileStore.DefaultLinksAreTheSnapchatLink` | src/frontend/src/features/profile/profileTypes.ts:19-21 | the default's links are the one Snapchat link with the migration's URL, so the Snapchat step returns the default unchanged |
| `ProfileStore.DefaultSurvivesCleanup` | src/frontend/src/features/profile/profileTypes.ts:20 | the clean-up leaves the default profile unchanged |
| `ProfileStore.DefaultBioIsNotOld` | src/frontend/src/features/profile/profileTypes.ts:16 | the default bio differs from the old default, so the bio step keeps it |
| `ProfileStore.DefaultIsMigrationFixpoint` | src/frontend/src/features/profile/profileTypes.ts:14-22 | whatever the flags, the chain leaves the default profile unchanged |
| `ProfileStore.LoadLegacyRecord` | src/frontend/src/features/profile/useProfileLocalStorage.ts:131-146 | an old record with the old bio, no email, no links and no flags loads with the current bio, the default email and the Snapchat link, and every flag done |
| `ProfileStore.AddedLink` | src/frontend/src/features/profile/useProfileLocalStorage.ts:167-172 | the list grows by one; the old entries keep their places and the new link is last |
| `ProfileStore.WithoutLink` | src/frontend/src/features/profile/useProfileLocalStorage.ts:174-179 | exactly entry `index` is removed when in range; otherwise the list is unchanged |
| `ProfileStore.WithLinkReplaced` | src/frontend/src/features/profile/useProfileLocalStorage.ts:181-188 | only entry `index` is replaced when in range, with the length kept; otherwise the list is unchanged |
| `ProfileStore.RemoveUndoesAdd` | src/frontend/src/features/profile/useProfileLocalStorage.ts:167-179 | removing the link just added restores the list |
| `ProfileStore.MergedProfileOverridesOnlySupplied` | src/frontend/src/features/profile/useProfileLocalStorage.ts:163-165 | a supplied field takes the supplied value, and every other field keeps its value |
| `ProfileStore.MergedProfileComposes` | src/frontend/src/features/profile/useProfileLocalStorage.ts:163-165 | two successive updates equal one update with the merged patch; an empty patch changes nothing |
| `ProfileStore.ProfileHook.constructor` | src/frontend/src/features/profile/useProfileLocalStorage.ts:130-161 | mounting holds the loaded profile, and storage is the load's storage with the profile stored by the effect's first run |
| `ProfileStore.ProfileHook.Persist` | src/frontend/src/features/profile/useProfileLocalStorage.ts:155-161 | the effect stores the serialised profile under the profile key and touches no other key |
| `ProfileStore.ProfileHook.UpdateProfile` | src/frontend/src/features/profile/useProfileLocalStorage.ts:163-165 | the profile becomes the merge of the old one with the patch, and is stored |
| `ProfileStore.ProfileHook.AddLink` | src/frontend/src/features/profile/useProfileLocalStorage.ts:167-172 | only the links change, to the appended list, and the profile is stored |
| `ProfileStore.ProfileHook.RemoveLink` | src/frontend/src/features/profile/useProfileLocalStorage.ts:174-179 | only the links change, to the list without entry `index`, and the profile is stored |
| `ProfileStore.ProfileHook.UpdateLink` | src/frontend/src/features/profile/useProfileLocalStorage.ts:181-188 | only the links change, to the list with entry `index` replaced, and the profile is stored |
| `Validation.ValidateUrl` | src/frontend/src/features/profile/validation.ts:1-31 | the scan returns exactly the verdict: required, unsafe scheme, invalid format, HTTP only, or accepted |
| `Validation.IsValidOutboundUrl` | src/frontend/src/features/profile/validation.ts:33-57 | true exactly when `validateUrl` accepts the same URL with the same parser |
| `Validation.UrlMessagesDistinct` | src/frontend/src/features/profile/validation.ts:1-31 | the four messages are pairwise different, so each verdict can be told apart |
| `Validation.UrlRequiredIffBlank` | src/frontend/src/features/profile/validation.ts:2-4 | "URL is required" is returned exactly for empty or whitespace-only input |
| `Validation.UnsafeSchemeDecidedBeforeParsing` | src/frontend/src/features/profile/validation.ts:9-16 | the unsafe-scheme message is returned exactly when the input is not blank and its trimmed, lower-cased form begins with one of the four schemes, whatever the parser says |
| `Validation.UrlVerdictAfterParsing` | src/frontend/src/features/profile/validation.ts:19-30 | past those checks, a parse failure gives "Invalid URL format", a protocol other than `http:` and `https:` gives the HTTP-only message, and anything else is accepted |
| `Validation.UnsafePrefixRefused` | src/frontend/src/features/profile/validation.ts:6-16 | leading whitespace followed by an unsafe scheme in any letter case is refused as unsafe, whatever the parser |
| `Validation.KeepDialable` | src/frontend/src/features/profile/validation.ts:61 | the first replacement leaves only digits and pluses, and leaves nothing exactly when the input has none |
| `Validation.DropPlusOnDialable` | src/frontend/src/features/profile/validation.ts:61 | on digits and pluses, the second replacement leaves the digits and one `+` at the end exactly when the input ends with `+` |
| `Validation.PlusIsLastDialableIff` | src/frontend/src/features/profile/validation.ts:61 | the last digit-or-plus character of the input is `+` exactly when the first replacement's output ends with `+` |
| `Validation.SanitizePhoneNumberSpec` | src/frontend/src/features/profile/validation.ts:59-62 | the output is the input's digits in order, then one `+` exactly when the last digit-or-plus character of the input is a `+` |
| `Validation.LeadingPlusDropped` | src/frontend/src/features/profile/validation.ts:60-61 | for `+` followed by digits, the function as written returns the digits alone, and the corrected one keeps the `+` |
| `Validation.SanitizePhoneKeepingLeadingPlusSpec` | src/frontend/src/features/profile/validation.ts:60 | the corrected sanitiser gives the input's digits in order, after one `+` exactly when the first digit-or-plus character is a `+` |
| `Validation.SanitizePhoneKeepingLeadingPlusIdempotent` | src/frontend/src/features/profile/validation.ts:60 | the corrected sanitiser is idempotent |
| `Validation.AllDigitsUnchanged` | src/frontend/src/features/profile/validation.ts:61 | both sanitisers leave a number made of digits only as it is |
| `Validation.DefaultPhoneUnchanged` | src/frontend/src/features/profile/profileTypes.ts:17 | both sanitisers leave the default phone number as it is |
| `Validation.EmailPatternIff` | src/frontend/src/features/profile/validation.ts:72 | the pattern matches exactly the strings that have no whitespace and exactly one `@`, not first, followed later by a `.` that neither directly follows the `@` nor ends the string |
| `Validation.ValidateEmailSpec` | src/frontend/src/features/profile/validation.ts:64-79 | blank input is accepted; other input is accepted exactly when the trimmed text has that shape; the only message is the invalid-address one |
| `Validation.EmailOfParts` | src/frontend/src/features/profile/validation.ts:72 | local part, `@`, domain, `.` and top-level part, each non-empty without whitespace or `@`, match the pattern |
| `Validation.DefaultEmailValid` | src/frontend/src/features/profile/profileTypes.ts:18 | the default address passes `validateEmail` |
| `Validation.CreateSafeMailtoLink` | src/frontend/src/features/profile/validation.ts:81-88 | the link starts with "mailto:"; after that it holds no `?`, `&`, `#` or whitespace; decoding that part gives back exactly the trimmed address |
| `UriEncoding.Utf8Char` | src/frontend/src/features/profile/validation.ts:85 | one to four bytes, a single byte exactly for ASCII (the character's own code), continuation bytes after the first |
| `UriEncoding.EncodeUriComponent` | src/frontend/src/features/profile/validation.ts:85 | the output holds only unreserved characters and `%`, and text made only of unreserved characters is left unchanged |
| `UriEncoding.PercentDecodeEncode` | src/frontend/src/features/profile/validation.ts:85 | the escapes of the encoding read back as the UTF-8 bytes of the input |
| `UriEncoding.Utf8DecodeEncode` | src/frontend/src/features/profile/validation.ts:85 | UTF-8 decoding inverts UTF-8 encoding |
| `UriEncoding.DecodeEncode` | src/frontend/src/features/profile/validation.ts:85 | decoding the encoding gives back the input, so no two addresses have the same encoding |
| `Strings.Trim` | src/frontend/src/features/profile/validation.ts:6 | a non-empty trim result neither starts nor ends with whitespace |
| `Strings.TrimSpec` | src/frontend/src/features/profile/validation.ts:2-6 | the trim result is an infix of the input with only whitespace around it, and is empty exactly when the input is all whitespace |
| `Strings.TrimIdempotent` | src/frontend/src/features/profile/validation.ts:6 | trimming twice equals trimming once |
| `Strings.StartsWithIff` | src/frontend/src/features/profile/validation.ts:13 | `startsWith` holds exactly when the prefix of the needle's length equals the needle |
| `Strings.IncludesIff` | src/frontend/src/features/profile/useProfileLocalStorage.ts:107-122 | `includes` holds exactly when the needle occurs at some index |

## Left out

- `JSON.parse` and `JSON.stringify` are parameters. A stored value that parses to something other than a profile record counts as a parse failure. In the source, a record of the wrong shape can instead throw partway through the chain. For example, a link without a label makes the clean-up throw after the earlier steps wrote their flags (the Snapchat flag whenever that step wrote it, and the email and bio flags). The default is then returned with those flags left set, which the model does not capture.
- Keys of a stored record other than the five fields of `ProfileData` are dropped by the model. The source carries them through its object spreads in every migration and writes them back with the profile.
- The WHATWG URL parser is a parameter from text to protocol, so the model does not check which strings parse.
- `console.error` logging and the exceptions that `localStorage` itself may throw are left out.
- React is left out. `ProfileHook.constructor` stands for the state initialiser followed by the effect's first run. Each mutation stands for the state update followed by the effect's run.
- An update patch cannot hold an explicit `undefined`. A present key whose value is `undefined` would blank that field in the source.
- Indices are integers. A fractional or `NaN` index matches no entry in the source, as an out-of-range integer index does here.
- `toLowerCase` maps only `A`–`Z`. The only non-ASCII characters that lower-case to ASCII letters are U+212A (to `k`) and U+0130 (to `i` with a combining dot). No scheme, and no needle of the clean-up, contains a `k` that either could complete. U+0130 gives two characters, an `i` then a combining dot, so it cannot complete a needle whose `i` is followed by an ASCII letter. The model therefore decides those checks as the source does.
- Strings are sequences of Unicode scalar values. JavaScript strings can hold lone surrogates, for which `encodeURIComponent` throws; the model has none.
- The copy of the clean-up predicate in `App.tsx`, the toast, the clipboard helper and the action button are presentation code. They are not part of this model.

## Findings

| source | as written | input that shows it | evidently intended | confidence | as-written member | corrected member |
|---|---|---|---|---|---|---|
| src/frontend/src/features/profile/validation.ts:60-61 | the second replacement removes every `+` that has any character after it, so a leading `+` is dropped and only a trailing `+` survives | "+919687626609" gives "919687626609" | keep a leading `+`, as the comment on line 60 says, so an international number keeps its prefix | high; not executed | `Validation.LeadingPlusDropped` | `Validation.SanitizePhoneKeepingLeadingPlusSpec` |
