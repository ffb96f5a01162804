# prompt-my-rep: the representative lookup pipeline and its helpers, in Dafny

prompt-my-rep is a civic web application. A signed-in user enters a postal
address. The application finds that address's congressional and state
legislative districts with the US Census geocoder. It then looks up the House
member, the two senators and the two state legislators in the Congress.gov and
OpenStates directories. Each representative found is saved into a
`representatives` table, with a primary link in `user_reps` to the user. Around
that pipeline sit a few pure helpers:

- the profile page's badge and party handling and its address fields;
- the "My Representatives" page's ordering, flag and party colour;
- the sign-in callback's redirect URL;
- the letter generator's prompt construction and model fallback.

This project models those parts, one module per source file:

| module | file | source |
|---|---|---|
| `JsValues` | js_values.dfy | JavaScript values the code relies on: absent/`null`/string properties, truthiness, `\|\|`, settled promises, directory replies |
| `Seqs` | seqs.dfy | `find` and `filter` |
| `Text` | text.dfy | `toLowerCase`, `includes`, `trim`, `split`/`join`, `String(n)` and `parseInt(s, 10).toString()` |
| `Representatives` | representative.dfy | the representative record both directories produce |
| `Federal` | federal.dfy | app/api/reps/lookup/federal.ts |
| `StateDirectory` | state_directory.dfy | app/api/reps/lookup/state.ts |
| `RepStore` | rep_store.dfy | the two tables the lookup route writes, as a `Store` class, and the save loop as a function |
| `RepLookup` | lookup_route.dfy | app/api/reps/lookup/route.ts |
| `Profile` | profile.dfy | app/profile/page.tsx |
| `RepsPage` | reps_page.dfy | app/reps/page.tsx |
| `AuthCallback` | auth_callback.dfy | app/auth/callback/route.js |
| `Generate` | generate.dfy | app/api/generate/route.ts |

The model replaces every network call with an input:

- the Census geocoder is a function from the address to its reply;
- the Congress.gov member list, the member details and the OpenStates searches are functions from the query to the reply;
- the code exchange is a function from the code to success;
- the language model is a function from (model, prompt) to its outcome.

Properties that say "no lookup is made" are therefore stated as: the result is
the same whatever those inputs are.

The database is the `RepStore.Store` class:

- a sequence of rows, where the row at index `i` has id `i + 1`;
- a map from (user, representative id) to `is_primary`.

`POST` (`RepLookup.Post`) runs its save loop over that object with
`MaybeSingle`, `Insert`, `Update` and `UpsertLink`. It is proved equal to the
function `RepLookup.Handle`. The idempotence and counting lemmas are stated
about that function.

## Model

| member | source | states |
|---|---|---|
| JsValues.ListOf | app/api/reps/lookup/federal.ts:5-20 | a missing API key, a non-ok response or a thrown fetch gives `[]`; a successful reply gives its list, and `[]` when the list is missing |
| Text.Lower | app/api/reps/lookup/state.ts:51 | `toLowerCase` keeps the length and lower-cases each ASCII letter in place, leaving every other character |
| Text.TrimIsTrimmed | app/profile/page.tsx:64 | `trim` (`Text.Trim`) leaves a text that neither starts nor ends with white space, and the input is white space, then that text, then white space: only white space at the two ends is cut |
| Text.TrimmedIsFixed | app/profile/page.tsx:64 | `trim` changes nothing on a text that neither starts nor ends with white space |
| Text.Split | app/profile/page.tsx:64 | `split` on one character gives at least one part and no part contains the separator; `Text.JoinSplit` shows joining the parts gives back the text |
| Text.ParseInt | app/api/reps/lookup/state.ts:52 | `parseInt(s, 10)` is NaN exactly when no digit follows the leading white space and sign; `Text.ParseIntReads` gives its value otherwise |
| Text.ParseIntReads | app/api/reps/lookup/state.ts:52 | white space, an optional `+` or `-`, a non-empty run of digits and a rest that does not start with a digit parse to the digits' decimal value, negated after `-` |
| Text.IntegerTextLeadingZero | app/api/reps/lookup/state.ts:52 | a leading zero before a non-empty digit string does not change `parseInt(...).toString()` |
| Text.IntegerTextIdempotent | app/api/reps/lookup/state.ts:52 | canonicalising an already canonical district changes nothing |
| Federal.Latest | app/api/reps/lookup/federal.ts:46-47 | the last term item exists exactly when the (one-element or array) term list is non-empty, and it is the last element |
| Federal.NormalizeMember | app/api/reps/lookup/federal.ts:37-64 | the detail's own phone wins and the website stays the member url; otherwise the last term's truthy phone and url override; an empty term array throws; the record is federal with the given role and district, the member's bioguide id, and a null photo without a depiction |
| Federal.GetHouseRep | app/api/reps/lookup/federal.ts:67-87 | null exactly when no member matches (own district, or latest House term's district, equal to the requested one as text); otherwise the first match's `normalizeMember` outcome with its own detail record as a "Representative": rejected exactly when that throws, else its record |
| Federal.NormalizeSenators | app/api/reps/lookup/federal.ts:102-107 | `Promise.all`: rejected exactly when one normalisation throws; otherwise, in order, each member's own `normalizeMember` record as a "Senator" for "Statewide" |
| Federal.GetSenators | app/api/reps/lookup/federal.ts:90-110 | the members whose latest term, or whose own chamber when they have no terms, is the Senate, in order; rejected exactly when normalising one of them throws; otherwise each record is that member's normalised "Senator" record |
| Federal.FailedFetchFindsNobody | app/api/reps/lookup/federal.ts:5-20 | after a failed member-list fetch the House lookup gives null and the Senate lookup `[]` |
| Federal.SingleTermIsOneElementList | app/api/reps/lookup/federal.ts:46 | a single `terms.item` object behaves like a one-element array in normalisation and in the Senate filter |
| Federal.EmptyTermsTolerance | app/api/reps/lookup/federal.ts:45-48 | normalising with an empty term array and no phone throws, while the House match through such a member falls back to its own district |
| Federal.NullDistrictFindsNoHouseMember | app/api/reps/lookup/federal.ts:70-78 | a House lookup for a null district finds nobody |
| StateDirectory.Jurisdiction | app/api/reps/lookup/state.ts:51-53 | the identifier is `ocd-jurisdiction/country:us/state:`, the lower-cased abbreviation, then `/government` |
| StateDirectory.JurisdictionIgnoresCase | app/api/reps/lookup/state.ts:51-53 | the identifier does not depend on the case of the abbreviation |
| StateDirectory.ChosenOffice | app/api/reps/lookup/state.ts:24-27 | the first capitol office, else the first district office, else the first office |
| StateDirectory.NormalizeStateRep | app/api/reps/lookup/state.ts:20-45 | state level; phone from the chosen office's voice or null; the person's email, else the chosen office's email, else null; first link url or null; image or null |
| StateDirectory.RoleName | app/api/reps/lookup/state.ts:68 | the role is "State Senator" exactly for the upper chamber and "State Representative" exactly for the lower one |
| StateDirectory.LegislatorQuery | app/api/reps/lookup/state.ts:48-61 | no search for a falsy district; otherwise the search uses the jurisdiction, the canonical district and the chamber |
| StateDirectory.GetStateRep | app/api/reps/lookup/state.ts:48-71 | null for a falsy district or an empty result; otherwise the first person, normalised with the role name and the canonical district |
| StateDirectory.FalsyDistrictSearchesNothing | app/api/reps/lookup/state.ts:49 | with a falsy district the answer is null whatever the directory holds |
| StateDirectory.LeadingZeroSameSearch | app/api/reps/lookup/state.ts:52 | "04" and "4" issue the same search |
| StateDirectory.StoredDistrictIsCanonical | app/api/reps/lookup/state.ts:52 | the district stored with a legislator is a fixed point of the canonicalisation |
| StateDirectory.StrategyA | app/api/reps/lookup/state.ts:81-88 | the first executive whose title contains "governor" in any case; none exactly when no executive's title does |
| StateDirectory.GovernorOrg | app/api/reps/lookup/state.ts:101 | the first organisation named like "governor", else the first organisation, else none |
| StateDirectory.GovernorMember | app/api/reps/lookup/state.ts:110 | the first member whose title contains "governor", else the first member, else none |
| StateDirectory.StrategyB | app/api/reps/lookup/state.ts:92-111 | none exactly when there is no organisation or it has no members; otherwise the first governor-titled member of the chosen organisation, else its first member |
| StateDirectory.GetGovernor | app/api/reps/lookup/state.ts:74-121 | null exactly when both strategies found nobody; otherwise the person strategy A found, or strategy B's when A found nobody, normalised as a "Governor" for "Statewide" |
| StateDirectory.StrategyBOnlyAfterA | app/api/reps/lookup/state.ts:92 | when strategy A succeeds, the organisation search has no influence |
| StateDirectory.StrategyBFindsGovernor | app/api/reps/lookup/state.ts:101-111 | when A fails, some executive organisation exists and organisations have members, a governor is found |
| RepStore.SearchFacts | app/api/reps/lookup/route.ts:120 | the table scan reports no match, one match at its index, or two matches, in agreement with the rows |
| RepStore.Lookup | app/api/reps/lookup/route.ts:109-121 | `maybeSingle`: an id of a matching row when exactly one row matches; none when no row or several rows match |
| RepStore.LookupUnique | app/api/reps/lookup/route.ts:120-121 | a unique matching row at index `i` is found as id `i + 1` |
| RepStore.LookupNone | app/api/reps/lookup/route.ts:120-123 | when at most one row can match, no id means no matching row |
| RepStore.LookupSamePattern | app/api/reps/lookup/route.ts:111-120 | the lookup depends only on which rows match |
| RepStore.Column | app/api/reps/lookup/route.ts:124-128 | an absent property is stored as null; a present one as given |
| RepStore.Stored | app/api/reps/lookup/route.ts:124-128 | the inserted row has the representative's name, state, role and level, and matches the representative's own lookup |
| RepStore.Keep | app/api/reps/lookup/route.ts:136 | an absent property leaves the column as it was; a present one overwrites it |
| RepStore.Merge | app/api/reps/lookup/route.ts:136 | the updated row takes every present property of the representative and keeps the rest |
| RepStore.Step | app/api/reps/lookup/route.ts:109-147 | one loop iteration: update the found row, or insert; no id, and no change, exactly when nothing matched and the insert was refused; otherwise the row at the id matches the representative and exactly one primary link for the user is set |
| RepStore.Store.constructor | app/api/reps/lookup/route.ts:28-31 | the store starts in the given state |
| RepStore.Store.MaybeSingle | app/api/reps/lookup/route.ts:109-121 | the scanning loop returns exactly `Lookup` of the rows |
| RepStore.Store.Insert | app/api/reps/lookup/route.ts:124-134 | a refused insert changes nothing and returns no id; otherwise the stored row is appended and its id returned |
| RepStore.Store.Update | app/api/reps/lookup/route.ts:136 | only the row with that id changes, to the merge |
| RepStore.Store.UpsertLink | app/api/reps/lookup/route.ts:140-144 | the (user, id) link is set to primary, whether or not it existed |
| RepStore.SaveAll | app/api/reps/lookup/route.ts:108-148 | the loop adds at most one row per representative, keeps every link and keeps primary links primary, adds links only for the user, and every saved entry is a representative of the batch with a primary link |
| RepStore.SaveAllWithoutFailures | app/api/reps/lookup/route.ts:123-147 | without refused inserts every representative is saved |
| RepStore.EmptyInv | app/api/reps/lookup/route.ts:108-148 | an empty table meets the no-duplicates invariant for any separated batch |
| RepStore.MergeKeepsMatch | app/api/reps/lookup/route.ts:136 | updating a matched row does not change which batch representatives match it |
| RepStore.StoredMatchesSameKey | app/api/reps/lookup/route.ts:124-128 | a row inserted for one representative matches another only when both have the same key |
| RepStore.AppendKeepsFor | app/api/reps/lookup/route.ts:111-134 | the inserted row is the only one its representative matches; another batch representative keeps its match or gains the new row only when it had none |
| RepStore.StepKeepsFor | app/api/reps/lookup/route.ts:109-147 | a step keeps every other batch representative matching at most one row |
| RepStore.StepPreserves | app/api/reps/lookup/route.ts:109-147 | a step keeps the invariant, keeps settled representatives settled and settles its own |
| RepStore.SaveAllSettles | app/api/reps/lookup/route.ts:108-148 | after the loop every representative of the batch is linked as primary or refused |
| RepStore.StepStill | app/api/reps/lookup/route.ts:120-144 | a step for a settled representative adds no row and changes no link |
| RepStore.RerunKeeps | app/api/reps/lookup/route.ts:108-148 | a loop over settled representatives adds no row and changes no link |
| RepStore.RerunIsIdempotent | app/api/reps/lookup/route.ts:108-148 | running the loop again with the same batch on the resulting tables adds no row and leaves the links unchanged |
| RepLookup.ExtractValue | app/api/reps/lookup/route.ts:163-171 | null without geographies, without a matching key, or with a missing or empty entry; otherwise the field of the first feature of the first key, in key order, that contains every term ignoring case |
| RepLookup.KeyMatchIgnoresCase | app/api/reps/lookup/route.ts:166-167 | key matching ignores the key's case |
| RepLookup.ExtractSkipsNonMatching | app/api/reps/lookup/route.ts:166-168 | layers before the first matching one play no part |
| RepLookup.DistrictsOf | app/api/reps/lookup/route.ts:64-77 | the congressional district and label; each state chamber's `Upper`/`Lower` district, falling back to `Senate`/`House` only when that is falsy; labels without fallback |
| RepLookup.NoGeographiesNoDistricts | app/api/reps/lookup/route.ts:164 | without geographies every district and label is null |
| RepLookup.LookupOutcomes | app/api/reps/lookup/route.ts:82-87 | four outcomes, in the order House, Senate, lower chamber, upper chamber |
| RepLookup.Contribution | app/api/reps/lookup/route.ts:92-97 | a rejected or null outcome adds nothing; an array is spliced in; a single value is appended |
| RepLookup.Flattened | app/api/reps/lookup/route.ts:89-101 | every representative an outcome contributes is in the list, and nothing else |
| RepLookup.FlattenedAppend | app/api/reps/lookup/route.ts:91-101 | flattening distributes over the outcome list, so it keeps order |
| RepLookup.FlattenOrder | app/api/reps/lookup/route.ts:82-101 | the list is the House member, then the senators, then the lower and then the upper legislator |
| RepLookup.FlattenOutcomes | app/api/reps/lookup/route.ts:89-101 | the `forEach` loop builds exactly the flattened list |
| RepLookup.SenateKinds | app/api/reps/lookup/route.ts:84 | every representative from the Senate lookup is a federal "Senator" |
| RepLookup.FlattenedKinds | app/api/reps/lookup/route.ts:82-101 | every representative found is federal with a federal role or state-level with a state legislative role |
| RepLookup.BatchSeparated | app/api/reps/lookup/route.ts:111-118 | a batch of federal representatives keyed by bioguide id and state ones keyed by name, state and role has no cross-key clash |
| RepLookup.SaveOne | app/api/reps/lookup/route.ts:109-147 | one iteration of the loop changes the store and yields the id exactly as `Step` says |
| RepLookup.SaveReps | app/api/reps/lookup/route.ts:108-148 | the imperative save loop leaves the store and the saved list exactly as `SaveAll` says |
| RepLookup.Handle | app/api/reps/lookup/route.ts:8-161 | 401 without a user; 400 without an address; 500 with the message when the geocoder fails; the not-found answer for a missing or empty match list; "Could not determine state." without a state; these write nothing; every other request gets 200 with the first match's state, its districts and the saved count, and the store the save loop leaves |
| RepLookup.EarlyExitsLookNothingUp | app/api/reps/lookup/route.ts:26-62 | an early answer is the same whatever the directories hold or the store refuses |
| RepLookup.UnmatchedAddress | app/api/reps/lookup/route.ts:53-56 | a missing or empty `addressMatches` gives exactly the "Address not found in Census database." answer |
| RepLookup.SavedCount | app/api/reps/lookup/route.ts:139-153 | `saved_count` is the number of representatives that obtained an id: at most the number found, all of them when no insert is refused |
| RepLookup.RepeatedLookupIsIdempotent | app/api/reps/lookup/route.ts:108-148 | a second identical request on the resulting store adds no row and leaves the links unchanged |
| RepLookup.Post | app/api/reps/lookup/route.ts:8-161 | the handler over the store gives the response and the new store state that `Handle` describes |
| Profile.ToggleBadge | app/profile/page.tsx:82-88 | a chosen badge is removed everywhere and the others keep their order; any other badge is appended |
| Profile.ToggleAbsentTwice | app/profile/page.tsx:83-87 | toggling an unchosen badge twice gives back the list |
| Profile.TogglePresentTwice | app/profile/page.tsx:83-86 | toggling a chosen badge twice moves it, once, to the end |
| Profile.SavedRoles | app/profile/page.tsx:95-96 | the badges, followed by the affiliation only when one is chosen |
| Profile.FinalRoles | app/profile/page.tsx:95-96 | the copy-and-push builds exactly those roles |
| Profile.Affiliation | app/profile/page.tsx:71-74 | the first role that is a party, or the current affiliation when no role is one |
| Profile.LoadRoles | app/profile/page.tsx:70-75 | the affiliation is the first saved party (unchanged without one); the badges are exactly the non-party roles, in their saved order with repeats; a missing list is empty |
| Profile.RolesRoundTrip | app/profile/page.tsx:70-96 | badges without a party and a chosen party or none load back as they were saved |
| Profile.BadgesAreNotParties | app/profile/page.tsx:27-35 | no offered badge is a party name |
| Profile.CombineAddress | app/profile/page.tsx:93 | the saved address has no surrounding white space, and the joined line is white space, then the saved address, then white space; `Profile.SavedAddressShape` gives its exact layout |
| Profile.LoadAddress | app/profile/page.tsx:63-68 | a missing address changes nothing; otherwise the street is the first trimmed comma-separated part and the city the second, when there is one |
| Profile.SavedAddressShape | app/profile/page.tsx:93 | for any street, the saved address is the street without its leading white space, a comma, a blank, the city, a comma, and the rest without its trailing white space |
| Profile.AddressRoundTrip | app/profile/page.tsx:63-93 | a street and a city without commas or surrounding white space load back unchanged |
| RepsPage.SortReps | app/reps/page.tsx:80-86 | the sorted list has the input's length; `RepsPage.SortIsPartition`, `SortIsPermutation` and `SortIsStable` state its order |
| RepsPage.Compare | app/reps/page.tsx:80-86 | -1 for federal before state, 1 for state before federal, 0 within a class |
| RepsPage.InsertFederal | app/reps/page.tsx:81-84 | a federal representative is inserted after the federal ones and before the others |
| RepsPage.InsertOther | app/reps/page.tsx:84-85 | any other representative is inserted at the end |
| RepsPage.SortIsPartition | app/reps/page.tsx:80-86 | the sorted list is the federal representatives then the others, each in original order |
| RepsPage.SortIsPermutation | app/reps/page.tsx:80 | sorting neither loses nor adds a representative |
| RepsPage.FederalFirst | app/reps/page.tsx:81-84 | every federal representative precedes every other one |
| RepsPage.SortIsStable | app/reps/page.tsx:85 | within each class the original order is kept |
| RepsPage.FlagBackground | app/reps/page.tsx:54-61 | the national flag for federal cards; otherwise the flag of the lower-cased state, with an empty code when there is no state |
| RepsPage.FederalFlagIgnoresState | app/reps/page.tsx:55-56 | a federal card's flag does not depend on its state |
| RepsPage.StateFlagIgnoresCase | app/reps/page.tsx:58 | a state card's flag does not depend on the state's case |
| RepsPage.StateFlagDeterminesState | app/reps/page.tsx:58-59 | equal state flags mean equal lower-cased states |
| RepsPage.PartyStyle | app/reps/page.tsx:123-126 | blue exactly when the party contains "Democrat"; red exactly when it does not but contains "Republican"; grey otherwise |
| RepsPage.BadgeClasses | app/reps/page.tsx:123-126 | the badge is `bg-blue-100 text-blue-800` exactly when the party contains "Democrat", `bg-red-100 text-red-800` exactly when it does not but contains "Republican", and `bg-gray-100 text-gray-700` otherwise |
| RepsPage.PartyLabel | app/reps/page.tsx:128 | the party, or "Unknown Party" when it is missing or empty |
| RepsPage.DemocraticIsBlue | app/reps/page.tsx:124 | any party name starting with "Democrat" is blue |
| RepsPage.NoPartyIsGrey | app/reps/page.tsx:124-126 | a missing party is grey |
| AuthCallback.NextPath | app/auth/callback/route.js:8 | `next` defaults to "/" only when absent |
| AuthCallback.BaseUrl | app/auth/callback/route.js:37-44 | the forwarded host over https outside development when the header is present; the origin otherwise |
| AuthCallback.Separator | app/auth/callback/route.js:49 | "&" exactly when the path contains "?", "?" exactly when it does not |
| AuthCallback.Callback | app/auth/callback/route.js:5-57 | the error page without a code or after a failed exchange; otherwise base, path, separator, "refresh=" and the second clock reading |
| AuthCallback.FirstReadingUnused | app/auth/callback/route.js:48-49 | the first clock reading has no effect on the redirect |
| AuthCallback.NoCodeNoExchange | app/auth/callback/route.js:10 | without a code the exchange outcome plays no part |
| AuthCallback.ErrorIgnoresHostAndPath | app/auth/callback/route.js:56 | the error redirect does not depend on the host header, the mode or the path |
| AuthCallback.OneQueryString | app/auth/callback/route.js:49 | the refresh parameter adds a "?" only when the path had none |
| AuthCallback.TimestampReadsBack | app/auth/callback/route.js:49 | the trailing digits of the redirect read back as the clock reading |
| Generate.ToneInstruction | app/api/generate/route.ts:31-34 | "concerned", "support" and "angry" map to their stances, in both directions; anything else is "professional and firm" |
| Generate.ExcerptLimit | app/api/generate/route.ts:37 | 3000 characters exactly in phone mode, 4000 otherwise |
| Generate.Prefix | app/api/generate/route.ts:50 | `substring(0, n)`: a prefix of at most `n` characters, the whole text when it is shorter |
| Generate.ReplaceFirst | app/api/generate/route.ts:46 | `replace` with a one-character pattern keeps the length and changes nothing without an occurrence |
| Generate.ReplaceOnlyFirst | app/api/generate/route.ts:46 | only the first underscore becomes a blank; later ones stay |
| Generate.ContextText | app/api/generate/route.ts:47 | "None" for a missing or empty personal context |
| Generate.BuildPrompt | app/api/generate/route.ts:36-81 | a prompt exactly when `action` and `articleText` are strings (building it throws otherwise) |
| Generate.RequestInPrompt | app/api/generate/route.ts:39-47 | every request line (topic, user info, stance, action, context) is a line of the prompt in both modes |
| Generate.ExcerptInPrompt | app/api/generate/route.ts:49-50 | the article excerpt is a line of the prompt in both modes |
| Generate.PhoneRulesInPrompt | app/api/generate/route.ts:52-55 | a phone prompt lists the phone script's requirements |
| Generate.LetterRulesInPrompt | app/api/generate/route.ts:72-78 | a letter prompt lists the letter's requirements |
| Generate.PromptCarriesExcerpt | app/api/generate/route.ts:49-50 | the prompt embeds a prefix of the article of at most 3000 (phone) or 4000 characters |
| Generate.PromptCarriesRequest | app/api/generate/route.ts:45-47 | the prompt carries the stance, the action with its first underscore replaced, and the personal context |
| Generate.LetterRequirements | app/api/generate/route.ts:75-78 | a letter prompt asks for "The Honorable" with the recipient and "Sincerely," with the user |
| Generate.PhoneRequirements | app/api/generate/route.ts:53 | a phone prompt asks for the opening "Hi, my name is" with the user's name and city |
| Generate.Recover | app/api/generate/route.ts:89-106 | a "404"/"not found" error goes to the fallback model (200 with its text, or 500 naming both models); any other error is a 500 with its message |
| Generate.Handle | app/api/generate/route.ts:6-107 | an unparsable body or a throwing prompt recovers with an empty prompt; otherwise the primary model's text, or recovery from its error with the same prompt |
| Generate.RecoverFacts | app/api/generate/route.ts:94-105 | a recovered response is 200 exactly when it carries the fallback model's text |
| Generate.SuccessMeansGenerated | app/api/generate/route.ts:83-105 | status 200 exactly with a letter, and every letter is a text one of the two models produced |
| Generate.FallbackOnlyWhenNotFound | app/api/generate/route.ts:94 | when the primary model does not fail with a "not found" error, the fallback model plays no part |
| Generate.FallbackGetsSamePrompt | app/api/generate/route.ts:96-100 | after a "not found" error the fallback model gets the same prompt, and its text is the letter |
| Generate.NotFoundCodeFallsBack | app/api/generate/route.ts:94 | any message containing "404" triggers the fallback |
| Generate.NoMessageNoFallback | app/api/generate/route.ts:94-105 | an error without a message is a 500 without a message |

## Left out

- Network I/O is not modelled: the Census geocoder, Congress.gov, OpenStates, the model service and the database client are inputs. Their failures are the replies a fetch helper turns into `[]` or `null`.
- Concurrency is not modelled. `Promise.allSettled` and `Promise.all` are fixed-order lists of outcomes. Two requests racing on the same rows are out of scope.
- Supabase authentication and cookies become an optional user id. A refused insert is an input predicate on the record.
- The `update` and `upsert` calls are assumed to succeed. The route ignores their errors, and a failed write would leave the tables as they were.
- RepStore.RerunIsIdempotent: proved under `Inv`, which is weaker than unconditional idempotence. `Inv` requires:
  - each representative of the batch matches at most one row;
  - rows matched by name, state and role carry no bioguide id;
  - no bioguide-keyed representative shares name, state and role with a composite-keyed one.
  Without it, `maybeSingle` finds no id for a doubly matched key and the route inserts again. `RepStore.EmptyInv` and `RepLookup.BatchSeparated` show when it holds.
  Both runs also use one `rejects` predicate, so the rerun refuses exactly the records the first run refused. A database that refuses a record once and accepts it later is not covered.
- RepLookup.RepeatedLookupIsIdempotent: has the same `Inv` precondition and the same single `rejects` predicate for both requests, for the same reasons.
- `getGovernor` is modelled (`StateDirectory.GetGovernor`), but the route does not call it, so it is not part of `Handle`.
- Lower-casing is ASCII only. JavaScript's full Unicode case mapping is not modelled.
- String lengths and `substring` count characters, not UTF-16 code units.
- `parseInt` is modelled on arbitrary-precision integers. The loss of precision past 2^53 is not modelled.
- Geography features are string maps, and every other record field is absent, `null` or a string. Numbers, objects and arrays in places where the source expects strings are not modelled, except `district` numbers from Congress.gov.
- A request body that cannot be parsed is modelled only in the generator, as an error carrying its message. In the lookup route a throw before the save loop is the 500 answer.
- The generator's thrown `TypeError` message, for a missing `action` or `articleText`, is an input. Its exact text belongs to the JavaScript engine.
- React state, JSX rendering, routing and redirects to `/login` are not modelled. Only the pure helpers of the two pages are.
- Console logging is not modelled.
- RepsPage.SortReps: is a stable insertion sort. Any stable sort orders the same way for a given comparator, and the engine's `Array.prototype.sort` is stable.
- `Date.now()` readings are parameters.
