# Platform UI: verified models

Dafny models of the parts of the platform UI that hold state, run concurrently or
transform data, and proofs of what they promise. Every algorithm that loops or
updates in place is a method proved equal to a specification function; the lemmas
then say what the function means. Protocols are state machines whose invariants are
proved over all runs. Replies of remote services, their failures and the choices of
the scheduler are parameters without restriction, so every failure pattern and every
interleaving is covered.

`dafny verify dfyconfig.toml` checks the whole project.

## What is modelled

| module | subject |
|---|---|
| `FanOut` | the goroutines behind `/usage?env=all`: six-slot semaphore, budget, mutex, counter, result slots |
| `Persons` | which accounts are fetched, and how they are merged into persons |
| `UsageLinks`, `UsageRows`, `UsageOverview` | index of client ids, table order, silent clients, apps without login; map iteration in any order |
| `Sorting`, `Comparing` | Go's stable and unstable sort, and the uniqueness of their results |
| `Claims`, `ClaimValidate`, `ClaimErrors`, `ClaimRender`, `ClaimSchema` | the claim form's payload, its validation, what each error means, its rendering, and the registry's schema and script rules |
| `Patterns`, `Quantity` | regular expressions with lookahead, and Kubernetes quantities as exact reals |
| `ClaimForm`, `EnvLines` | from submitted text to a claim, and the text boxes for environment variables |
| `GitRepo`, `ClaimPR`, `ClaimGuard`, `ClaimRace` | opening the claim's pull request on a git repository that others change, alone and in competition |
| `Bootstrap`, `BootstrapRun` | the bootstrap of an app repository, the compliance checks, and the exact effect of an undisturbed run |
| `ScopeCache` | the scope catalog's cache under concurrent lookups |
| `Drift` | the drift scanner and its table |
| `Calendar`, `UsageRange` | proleptic Gregorian dates (full-date of section 5.6 of RFC 3339) and the usage page's range |
| `Decimal`, `Sparkline`, `Text`, `Wrappers` | numerals, the sparkline column, Go's string functions, result types |

## Where the code does less than it says

- A date range handed back to the usage page is not always accepted: with the default
  start, an end within 0000-01-01 to 0000-01-29 gives a start in a negative year, and a
  current date after year 9999 has five digits. `UsageRange.FeedBack` gives the exact
  condition, `UsageRange.FeedBackFails` the failing family.
- The quantity limits are not kept exactly: the slack of 1e-12 lets a value past the cap as
  soon as it has enough fraction digits. `Quantity.CapExactly` gives the number of digits per unit.
- The bootstrap is meant to leave what exists alone. Files it does leave alone; an existing
  branch protection is replaced, and a workflow duplicated, when the probe fails with an error
  whose text contains "404". `Bootstrap.ProtectionReplacedExactly`, `Bootstrap.CreatesExactly`
  and `Bootstrap.ProtectionCanBeReplaced` say exactly when.
- The claim's commit is the base tree plus the claim's files only if no file of the base stands
  where a new path needs a directory; the existence checks do not look there.
  `GitRepo.OverlayKeeps` states the condition.

## Assumptions

- Registry slugs are unique where order independence or a per-app row is claimed (the lemma says so).
- Environment keys of one overview are distinct; activity sums do not overflow.
- The clock of the scope cache does not go back; the current date has a four-digit year when a
  claim without a date is rendered.
- Git names objects by position instead of by hash; objects are never changed once created.
  A tree that gets a file where the base has a directory, or the other way round, keeps the new one.
- Nobody deletes or moves the contested branch while claimers compete for it.

## Model

| member | source | states |
|---|---|---|
| `FanOut.RunInv` | internal/http/handlers/usage_env.go:218-277 | In every run of the goroutines, in any interleaving, with any `select` choice, any call outcome and the budget ending at any moment, the invariant holds and the run ends: steps made plus steps left never exceed 8n+1. |
| `FanOut.SemaphoreExact` | internal/http/handlers/usage_env.go:219-247 | In every reachable state the semaphore count equals the number of jobs between acquire and release, and is at most 6. |
| `FanOut.MutualExclusion` | internal/http/handlers/usage_env.go:226-236 | At most one goroutine is between lock and unlock, and the value it read is still the counter's value when it writes. |
| `FanOut.Progress` | internal/http/handlers/usage_env.go:238-277 | While any job is unfinished some goroutine can step without the budget having to end: no deadlock. |
| `FanOut.ReleaseNeverBlocks` | internal/http/handlers/usage_env.go:240-247 | The deferred receive from the semaphore is always possible. |
| `FanOut.FinalCount` | internal/http/handlers/usage_env.go:218-299 | When all are done the semaphore is empty, the mutex free, and `missing` plus the number of filled slots is the number of jobs; `FanOut.MissingExactly` says which jobs are missing. |
| `FanOut.BudgetStopsQueued` | internal/http/handlers/usage_env.go:240-252 | A job that has not passed its budget check when the budget ends never starts its call in any continuation, and is counted missing when it finishes. |
| `FanOut.SlotsAreOutcomes` | internal/http/handlers/usage_env.go:259-274 | When all are done, slot i holds the reply to job i's own call, or nothing. |
| `FanOut.OrderIrrelevant` | internal/http/handlers/usage_env.go:218-287 | Two finished runs whose calls had the same outcomes end with the same slots and the same `missing`, whatever the completion orders. |
| `FanOut.RefinesSequentialLoop` | internal/http/handlers/usage_env.go:218-287 | Every finished concurrent run is matched by a sequential loop over its outcomes that is itself a run and ends with the same slots and count. |
| `Persons.CollectJobs` | internal/http/handlers/usage_env.go:189-212 | The nested loop builds exactly the job list of the specification. |
| `Persons.JobsExactly` | internal/http/handlers/usage_env.go:193-212 | Each environment's clients with 30-day activity are fetched once each, and no others. |
| `Persons.KeysAgreeExactly` | internal/http/handlers/usage_env.go:382-391 | Two accounts have the same key exactly when they are the same person: equal Personio ids, or without any Personio id equal trimmed names up to case, or without names too the same account id; the three kinds of key never collide. |
| `Persons.AggregatePersons` | internal/http/handlers/usage_env.go:307-380 | Whatever order the map is iterated in, the result is an answer: one merged person per key, sorted. What an answer shows is said by `Persons.PersonsSay`, `Persons.ActivityConserved` and `Persons.AnswerOrdered`. |
| `Persons.Finish` | internal/http/handlers/usage_env.go:350-369 | The loop over `best`, `bestTotal` and `tie` computes the total and the dominant environment of the specification. |
| `Persons.Conserved` | internal/http/handlers/usage_env.go:315-346 | Per environment, the logins, refreshes, uses and totals of the persons are those of all accounts of the slots that were filled. |
| `Persons.TotalsConserved` | internal/http/handlers/usage_env.go:339-369 | The person totals add up to the logins plus refreshes plus uses of all accounts fetched. |
| `Persons.AnswerShape` | internal/http/handlers/usage_env.go:307-380 | One person per key, and every person is the merge of the accounts of one key. |
| `Persons.MaxDaysIsMax` | internal/http/handlers/usage_env.go:339-345 | Active days are the largest value among the merged accounts. |
| `Persons.DominantExactly` | internal/http/handlers/usage_env.go:350-366 | `Dominant` names an environment exactly when it alone has the largest, positive total; ties and zero give none. |
| `Persons.AnswersAgree` | internal/http/handlers/usage_env.go:348-379 | Two answers for the same accounts hold the same persons and agree position by position on what the order looks at. |
| `Persons.FanOutDecidesPersons` | internal/http/handlers/usage_env.go:183-300 | The whole section depends only on the outcomes of the calls: two runs of the fan-out with equal outcomes show the same persons and the same number missing. |
| `UsageLinks.ClientLinks` | internal/http/handlers/usage.go:539-559 | Whatever order the registry's maps are iterated in, the result is the index: per client id the links that name it, each as often as the registry names it, in order. |
| `UsageLinks.IndexUnique` | internal/http/handlers/usage.go:539-559 | The index does not depend on any iteration order. |
| `UsageLinks.LinksForMember` | internal/http/handlers/usage.go:539-559 | A link is in the index under an id exactly when some app of that slug names the id at that stage. |
| `UsageLinks.CompareLinksOrder` | internal/http/handlers/usage.go:603-620 | `compareLinks` is a total order that only calls equal links equal. |
| `UsageLinks.LinkClient` | internal/http/handlers/usage.go:575-601 | The linked app and its stages are those of the specification. |
| `UsageLinks.FirstSlugWins` | internal/http/handlers/usage.go:575-601 | An id that several apps name goes to the first slug in order, with stages of that app only. |
| `UsageLinks.NoLoginApps` | internal/http/handlers/usage.go:688-699 | The apps without login are listed in slug order. |
| `UsageLinks.NoLoginExactly` | internal/http/handlers/usage.go:688-699 | With unique slugs an app is in `NoLogin` exactly when it contributes no link to the index. |
| `UsageLinks.SilentClients` | internal/http/handlers/usage.go:741-792 | The loops over the index, in any map order, produce the specified list; `UsageLinks.SilentMulti` and `UsageLinks.SilentSingle` say its entries without the functions that pick a deployment. |
| `UsageLinks.SilentExactly` | internal/http/handlers/usage.go:741-792 | Membership by the stage's own deployment: listed exactly when the registry names the id there, the deployment was fetched and the id is inactive in every fetched deployment of the stages naming it. |
| `UsageLinks.SilentOnceAndUnique` | internal/http/handlers/usage.go:741-792 | With unique slugs each entry is listed at most once and the list is the same for every iteration order. |
| `UsageRows.SortUsageRows` | internal/http/handlers/usage.go:709-737 | The in-place sort leaves the stable sort of the rows by the comparator. |
| `UsageRows.RowOrderIsPreorder` | internal/http/handlers/usage.go:709-737 | The comparator is a total preorder, grouped or not. |
| `UsageRows.SortedRowsStable` | internal/http/handlers/usage.go:709-737 | The result is a sorted permutation that keeps rows the comparator cannot tell apart in their order. |
| `UsageRows.GroupLoginsSum` | internal/http/handlers/usage.go:710-717 | The map built by the loop holds, per group, the sum of its rows' 30-day logins. |
| `UsageRows.GroupedTable` | internal/http/handlers/usage.go:719-737 | In the grouped table rows of one app are contiguous, groups come in non-increasing order of summed logins, and rows inside a group follow the environments. |
| `UsageOverview.BuildUsageOverview` | internal/http/handlers/usage.go:637-704 | The whole overview satisfies its specification: rows, silent clients, apps without login. |
| `UsageOverview.OverviewUnique` | internal/http/handlers/usage.go:637-704 | Two overviews of the same replies are equal: no map iteration order shows. |
| `UsageOverview.ActiveMapMeans` | internal/http/handlers/usage.go:650-659 | The activity map holds an environment exactly when it was fetched, with exactly its clients with activity. |
| `Sorting.SortSorts` | internal/http/handlers/usage.go:709-737 | The stable sort sorts and permutes. |
| `Sorting.SortStable` | internal/http/handlers/usage.go:709-737 | The stable sort keeps the order inside every class of equal elements. |
| `Sorting.StableSortUnique` | internal/http/handlers/usage.go:709-737 | Sorted order and unchanged classes fix the sequence, so a stable sort has one possible result. |
| `UsageRange.ResolveUsageRange` | internal/http/handlers/usage.go:440-476 | The reassignments of both dates compute the specified range or error. |
| `UsageRange.SaturationIsHarmless` | internal/http/handlers/usage.go:467-473 | The subtraction that saturates at 2^63-1 nanoseconds decides the 366-day limit as the exact difference would. |
| `UsageRange.AcceptedExactly` | internal/http/handlers/usage.go:440-476 | A range is accepted exactly when both ends are dates, in order, and at most 366 days long counting both. |
| `UsageRange.DefaultIsThirtyDays` | internal/http/handlers/usage.go:440-476 | Without a start every end is accepted with a range of exactly 30 days, across month and leap-year ends. |
| `UsageRange.FeedBack` | internal/http/handlers/usage.go:440-476 | An accepted range handed back is accepted unchanged exactly when its end is before year 10000 and a defaulted start is not pushed into a negative year. |
| `UsageRange.FeedBackFails` | internal/http/handlers/usage.go:440-476 | Every end from 0000-01-01 to 0000-01-29 with the default start is accepted, and its own answer is then refused. |
| `Calendar.DayNumberBijection` | internal/http/handlers/usage.go:440-476 | Dates and day numbers correspond one to one in both directions. |
| `Calendar.AddDaysNumber` | internal/http/handlers/usage.go:452-452 | Walking n days forward or back over month and year ends changes the day number by n. |
| `Calendar.ParseFormat` | internal/http/handlers/usage.go:440-476 | A printed date reads back as itself exactly when its year has four digits and no sign. |
| `ClaimValidate.ValidateEnv` | internal/registry/validate.go:264-325 | The loop with its `seen` map returns the first error of the specification. |
| `ClaimValidate.EnvExactly` | internal/registry/validate.go:264-336 | No error means: at most 50 variables, distinct names, each with a valid name and either a text of at most 4096 characters or a reference to a known secret. |
| `ClaimValidate.ValidateSecrets` | internal/registry/validate.go:165-185 | Returns the set of the listed secrets, or the first malformed or repeated name. |
| `ClaimValidate.SecretsExactly` | internal/registry/validate.go:165-185 | The secrets pass exactly when every name matches and none repeats. |
| `ClaimValidate.ValidateComponent` | internal/registry/validate.go:187-262 | The checks run in the source's order and report the first failure. |
| `ClaimValidate.ComponentExactly` | internal/registry/validate.go:187-262 | A component passes exactly when every rule for it holds. |
| `ClaimValidate.ValidateHost` | internal/registry/validate.go:414-437 | The loop over the labels accepts exactly the host names of the specification. |
| `ClaimValidate.ValidateRepoUrl` | internal/registry/validate.go:391-412 | The address is refused for its shape or for its first character that may not stand in a URI. |
| `ClaimValidate.Validate` | internal/registry/validate.go:52-144 | Returns the error of the specification, checks in the source's order. |
| `ClaimValidate.ValidateExactly` | internal/registry/validate.go:52-144 | `Validate` returns no error exactly for the claims that keep every rule on head, enabled components with both stages' environments, and tail. |
| `Patterns.ValidateLogin` | internal/registry/validate.go:366-385 | The loop over the characters computes the hand-written login test. |
| `Patterns.LoginExactly` | internal/registry/validate.go:366-385 | The hand-written login test accepts exactly what the schema's pattern with lookahead matches. |
| `Patterns.SecretKeyExactly` | internal/registry/validate.go:338-344 | The hand-written secret key test accepts exactly what the schema's pattern with two negative lookaheads and its length limit accept. |
| `Patterns.ImageTagExactly` | internal/registry/validate.go:346-364 | The hand-written tag test accepts exactly what the schema's pattern with `(?!latest$)` matches. |
| `ClaimValidate.ValidateImageTag` | internal/registry/validate.go:348-364 | Reports no error exactly for tags that match the schema's lookahead pattern, and otherwise says which rule failed. |
| `Quantity.PatternExactly` | internal/registry/validate.go:17-18 | The quantity patterns match exactly the texts of a whole part, an optional fraction and an allowed unit. |
| `Quantity.AcceptedExactly` | internal/registry/validate.go:439-465 | A quantity is accepted exactly when it is spelled that way and its value is positive and at most the cap with the slack. |
| `Quantity.SpelledValue` | internal/registry/validate.go:467-494 | The value read from the text is the whole number of its digits, shifted by its fraction digits, times its unit. |
| `Quantity.SlackHarmless` | internal/registry/validate.go:455-462 | With few enough fraction digits for its unit, an accepted quantity is within the cap itself. |
| `Quantity.SlackShows` | internal/registry/validate.go:455-462 | With one fraction digit more some accepted quantity is above the cap, for every unit. |
| `Quantity.CapExactly` | internal/registry/validate.go:455-462 | For each unit and number of fraction digits: every accepted quantity is within the cap if and only if the number of digits does not exceed the unit's bound. |
| `ClaimRender.MakeEnvMap` | internal/registry/render.go:225-232 | The loop fills the map of the specification, a repeated name keeping its last value. |
| `ClaimRender.EnvMapLossless` | internal/registry/render.go:225-232 | With distinct names the map has exactly the variables, one entry each, carrying all of it. |
| `ClaimRender.ToApp` | internal/registry/render.go:94-154 | The field-by-field construction gives the claim of the specification; `ClaimRender.HeadRendered`, `StagesRendered` and `ComponentRendered` say every key of that claim by its own input field. |
| `ClaimRender.MakeStage` | internal/registry/render.go:156-179 | One stage, with environments of enabled components only. |
| `ClaimRender.MakeComponent` | internal/registry/render.go:189-215 | What is set for a component, or nothing when nothing is. |
| `ClaimRender.TagFiles` | internal/registry/render.go:238-275 | The tag files of the specification, or the error for no component or no stage. |
| `ClaimRender.TagFilesExactly` | internal/registry/render.go:238-275 | `tags/<slug>/staging.yaml` and `tags/<slug>/prod.yaml`, each exactly when its stage is enabled and no other file, each with exactly the tags of the enabled components. |
| `ClaimSchema.AcceptedKeepsSchema` | internal/registry/validate.go:48-144 | Every claim `Validate` accepts is rendered to a claim that the app schema accepts. |
| `ClaimSchema.AcceptedKeepsRules` | internal/registry/schema_test.go:301-375 | ... and that keeps the script's rules: blocks exactly for enabled components, an active stage, every secret reference listed, quantities positive and within the cap with its slack. |
| `ClaimSchema.AcceptedTagFiles` | internal/registry/render.go:238-275 | An accepted claim has tag files and each keeps the tag schema. |
| `ClaimSchema.AcceptedEnvLossless` | internal/registry/claim.go:157-168 | In the rendered claim of an accepted input no environment variable of an enabled component is lost or altered, in its own block and in each stage's own: as many entries as variables, the same names, texts written as texts and references as references. |
| `ClaimSchema.HostPasses` | internal/registry/validate.go:414-437 | A host name that passes is a host name of RFC 1123 with 3 to 253 characters. |
| `ClaimSchema.EnvPasses` | internal/registry/validate.go:264-325 | An accepted list of variables becomes a map that the schema's `envMap` accepts and whose references are all listed. |
| `ClaimForm.ParseClaimForm` | internal/http/handlers/claim.go:84-177 | The field-by-field construction gives the claim of the specification or the first error. |
| `ClaimForm.DisabledHasNoInfluence` | internal/registry/render.go:94-275 | Claims that differ only in settings of disabled components get the same verdict, the same claim and the same tag files. |
| `ClaimForm.UncheckedHasNoInfluence` | internal/http/handlers/claim.go:148-177 | Forms that differ only in fields of unchecked components give the same claim or the same error, and the claim has nothing set for them. |
| `ClaimForm.FormNeverTwice` | internal/registry/validate.go:170-182 | A claim parsed from the form never fails validation because something is listed or set twice: the parser already refused or dropped it. |
| `ClaimForm.ClaimFiles` | internal/http/handlers/claim.go:319-335 | The files of the pull request are the tag files and the claim. |
| `ClaimForm.FilesApart` | internal/http/handlers/claim.go:319-335 | The claim's file takes the place of no tag file, and every path is relative. |
| `EnvLines.ParseEnvLines` | internal/registry/textinput.go:17-62 | The line loop computes the specified list or the first error with its line number. |
| `EnvLines.FormatEnvLines` | internal/registry/textinput.go:65-77 | The builder loop prints the specified text. |
| `EnvLines.FormatThenParse` | internal/registry/textinput.go:17-77 | Every list the parser can produce survives printing and parsing. |
| `EnvLines.ParserImage` | internal/registry/textinput.go:17-62 | The parser produces exactly the lists of distinct, trimmed one-line names without `=` or leading `#`, with plain values not starting with `secret:` or references whose secret part has no `/`. |
| `EnvLines.ParseFormatParse` | internal/registry/textinput.go:17-77 | Parsing, printing and parsing again gives what parsing once gives, on every text. |
| `EnvLines.ParseNameList` | internal/registry/textinput.go:81-96 | The loop with its `seen` map computes the specified list. |
| `EnvLines.FirstSeenKeepsOrder` | internal/registry/textinput.go:81-96 | Names keep the order of their first occurrence. |
| `Sparkline.EncodeSparkline` | internal/metrics/store.go:210-221 | The array of parts, filled by index, is joined to the specified text. |
| `Sparkline.DecodeSparkline` | internal/metrics/store.go:223-242 | The loop with its skips computes the specified list. |
| `Sparkline.DecodeEncode` | internal/metrics/store.go:210-242 | Decoding an encoded list gives it back, for every list of int64 values, the minimum included. |
| `Sparkline.DecodePicks` | internal/metrics/store.go:223-242 | On any text the decoder returns exactly the well-formed in-range entries, each once and in order. |
| `Decimal.ParseFormat` | internal/metrics/store.go:210-242 | A printed int64 parses back to itself. |
| `ClaimPR.ValidateRequest` | internal/github/pr.go:165-201 | A request passes exactly when it is complete, comes back with its base branch filled in, and a refusal names a defect it really has. |
| `ClaimPR.CheckPaths` | internal/github/pr.go:87-105 | No finding means that the slug is free at the base commit, in the sense of `ClaimPR.UnclaimedExactly`; undisturbed, a free slug gives no finding; a finding names a path that exists, `tags/<slug>` or a file of the claim. |
| `ClaimPR.OpenClaimPR` | internal/github/pr.go:72-163 | Whatever others do and whichever calls fail: nothing is written before all checks have passed; what is written is a prefix of tree, commit, branch, pull request, where the tree is the base tree overlaid with the files, the commit's only parent is the base and the branch is new; the outcome says how far it got; undisturbed, it succeeds and leaves exactly the repository of the specification. |
| `ClaimPR.AfterClaimIs` | internal/github/pr.go:62-71 | An undisturbed claim adds one ref and changes none; the branch holds one commit on the base, and its tree is the base tree extended by exactly the files if and only if no base file is in the way of a new directory. |
| `ClaimPR.SecondClaimRefused` | internal/github/pr.go:94-105 | Once the branch is merged, no request with one of its files, or whose tag directory holds one of them, finds the slug free. |
| `GitRepo.OverlayKeeps` | internal/github/pr.go:41-44 | With fresh paths the base tree is kept whole exactly when no base file stands where a new path needs a directory. |
| `ClaimRace.AtMostOneWinner` | internal/http/handlers/claim.go:468-478 | In every run of any number of claimers of one slug, interleaved with anything others do: at most one gets the branch, and the branch is that claimer's commit on its base. |
| `ClaimRace.ClaimersMoveNoRef` | internal/github/pr.go:237-257 | No step of a claimer changes an existing ref, the base branch among them. |
| `ClaimRace.BranchStays` | internal/github/pr.go:237-257 | Once the branch exists it stays at its commit for the rest of the run. |
| `Bootstrap.DoEnsureFile` | internal/repobootstrap/bootstrap.go:199-260 | The probe loop and the creation do what the specification says, call by call. |
| `Bootstrap.Run` | internal/repobootstrap/bootstrap.go:48-65 | The loop over the steps leaves the specified repository and actions. |
| `Bootstrap.RunKeepsFiles` | internal/repobootstrap/bootstrap.go:194-260 | Under any failure pattern every file that existed is there unchanged after the run. |
| `Bootstrap.RunReports` | internal/repobootstrap/bootstrap.go:48-65 | Always seven actions, one per step in order. |
| `Bootstrap.RunPlaces` | internal/repobootstrap/bootstrap.go:199-260 | If no action failed, every step's file or an equivalent exists and main is protected, whatever the calls replied. |
| `Bootstrap.RunMakesCompliant` | internal/compliance/checks.go:21-118 | After a run without a failed action every standard check that gets proper answers passes. |
| `Bootstrap.SecondRunSkips` | internal/repobootstrap/bootstrap.go:149-260 | With everything in place an undisturbed run only skips and changes nothing. |
| `Bootstrap.CreatesExactly` | internal/repobootstrap/bootstrap.go:208-260 | A file is created exactly when every probe reads as absent, the template exists, the path is free and the creation takes effect. |
| `Bootstrap.DuplicateNeedsMisleading` | internal/repobootstrap/bootstrap.go:262-281 | A copy beside an existing equivalent appears only behind a failure that reads as not found. |
| `Bootstrap.ProtectionReplacedExactly` | internal/repobootstrap/bootstrap.go:149-190 | An existing protection is replaced exactly when its probe fails with an error that reads as not found and the update takes effect. |
| `Bootstrap.ProtectionCanBeReplaced` | internal/repobootstrap/bootstrap.go:262-281 | One gateway error whose text contains 404 is enough. |
| `Bootstrap.RunKeepsProtection` | internal/repobootstrap/bootstrap.go:149-190 | Over a whole run an existing protection survives unless its probe misleads. |
| `Bootstrap.CheckAnyFile` | internal/compliance/checks.go:72-97 | The loop with its `lastErr` computes the specified verdict. |
| `Bootstrap.AnyFileExactly` | internal/compliance/checks.go:69-97 | A pass is never wrong, and without failures a candidate that exists gives a pass. |
| `Bootstrap.StandardChecks` | internal/compliance/checks.go:19-27 | The three checks in their order. |
| `ScopeCache.Client.Scope` | internal/ewwsauth/client.go:92-143 | One call: a fresh entry is returned and nothing changes; otherwise an answer or a not-found is stored with the effective time to live, and any other failure is not. |
| `ScopeCache.NextKeepsInv` | internal/ewwsauth/client.go:92-143 | Every step of any caller keeps the invariant that ties the cache to what was stored. |
| `ScopeCache.HitsAreFresh` | internal/ewwsauth/client.go:117-127 | In every interleaving every hit returns the last answer stored for that name, at some time t with t <= now < t + ttl. |
| `ScopeCache.CacheHoldsAnswers` | internal/ewwsauth/client.go:129-143 | What the cache holds was stored as an answer for that name and expires the ttl after it was stored. |
| `ScopeCache.FetchesAreNeeded` | internal/ewwsauth/client.go:92-107 | A fetch starts only when everything stored under its name before is at least the ttl old. |
| `ScopeCache.FetchesAreApart` | internal/ewwsauth/client.go:92-107 | One request after the other, a fetch whose answer was stored and the next fetch of the same name start at least the ttl apart. |
| `Drift.RunOnce` | internal/drift/scanner.go:26-95 | The loop leaves the specified table and counts the rows written. |
| `Drift.ReadStageTags` | internal/drift/scanner.go:97-126 | A missing file gives empty tags, any other failure gives up on the app. |
| `Drift.Store.Upsert` | internal/drift/store.go:55-75 | Writes or replaces one row and leaves the others. |
| `Drift.ScanExactly` | internal/drift/scanner.go:26-95 | When the store works, an app that cannot be read keeps its row and any other has exactly the row its tags call for. |
| `Drift.UnreadableKept` | internal/drift/scanner.go:38-58 | An app with a bad address or unreadable tags keeps its rows even when the store fails. |
| `Drift.RowExactly` | internal/drift/scanner.go:60-91 | A readable app has a row for a component exactly when some tag is set, and the row carries those tags. |
| `Drift.OthersKept` | internal/drift/scanner.go:38-92 | Rows of slugs that are not scanned are left alone, whatever fails. |
| `Drift.AlwaysSensible` | internal/drift/compare.go:52-95 | Over any sequence of scans with any failures no row has two empty tags, and a row with an empty tag or equal normalised refs has zero commits ahead. |
| `Drift.CountExactly` | internal/drift/scanner.go:83-94 | The count is at most the number of rows to write, and exactly that when the store works. |
| `FanOut.StepInv` | internal/http/handlers/usage_env.go:218-277 | Every step of any goroutine, and the end of the budget, keeps the invariant and uses up at least one step of the measure. |
| `Persons.AddAccount` | internal/http/handlers/usage_env.go:322-345 | Merging one more account turns the map of merged persons into the map for one more entry. |
| `ClaimRender.RenderLossless` | internal/registry/render.go:94-275 | Two claims with equal rendering and equal tag files agree on every setting of enabled components, environments compared as maps; only the date may have been filled in. |
| `ClaimSchema.SmallestClaimAccepted` | internal/registry/validate.go:52-144 | The promise is not empty: a smallest claim is accepted unless its slug is reserved. |
| `ClaimForm.ParseComponent` | internal/http/handlers/claim.go:182-214 | One component's fields, the port read as a number before the environment is parsed. |
| `ClaimForm.ParseStage` | internal/http/handlers/claim.go:216-241 | One stage's fields, with the environment of checked components only. |
| `ClaimRace.NextKeepsInv` | internal/github/pr.go:72-163 | Every step of any claimer or of the rest of the world keeps the invariant of the competition. |
| `Bootstrap.DoEnsureProtection` | internal/repobootstrap/bootstrap.go:149-190 | Probe and update do what the specification says. |
| `Bootstrap.CheckProtection` | internal/compliance/checks.go:99-118 | The verdict of the specification, an error kept apart from an absent protection. |
| `ScopeCache.Client.Read` | internal/ewwsauth/client.go:117-127 | An entry is handed out exactly while the clock is before its expiry. |
| `ScopeCache.Client.Write` | internal/ewwsauth/client.go:129-143 | Stores the outcome with the effective time to live: five minutes unless a positive one is set. |
| `Drift.NormalizeRefExactly` | internal/drift/compare.go:30-39 | One `sha-` prefix is peeled off and every other tag passes unchanged. |
| `Drift.Store.Delete` | internal/drift/store.go:42-53 | Removes one row if it is there and leaves the others. |
| `Drift.Store.Get` | internal/drift/store.go:77-95 | Finds exactly the row of the key. |
| `FanOut.MissingExactly` | internal/http/handlers/usage_env.go:226-274 | In every finished run `missing` is the number of calls that failed plus the number of jobs that the end of the budget stopped, counted over the actions of the run. |
| `FanOut.NoBudgetNoSkip` | internal/http/handlers/usage_env.go:238-252 | In a finished run in which the budget does not end every job makes its call, and `missing` is the number of calls that failed. |
| `FanOut.OnlyBudgetSkips` | internal/http/handlers/usage_env.go:238-274 | A finished job's slot holds the reply to its call, unless the budget ended before the job gave up waiting or checked the budget; then it made no call and the slot is empty. |
| `FanOut.CallsOnce` | internal/http/handlers/usage_env.go:254-262 | No job makes its call twice. |
| `FanOut.SixSlots` | internal/http/handlers/usage_env.go:219-247 | In every run the semaphore's count is the number of slots taken less those given back, at most 6, and a waiting job can take one while fewer than 6 are out. |
| `Persons.EntriesExactly` | internal/http/handlers/usage_env.go:315-345 | Every account of every filled slot is merged exactly once, at the position given by the slots before it, under its own key and in the environment of its own job. |
| `Persons.ActivityConserved` | internal/http/handlers/usage_env.go:315-346 | Per environment, the logins, refreshes and uses the persons show are the sums of the accounts' own logins, refreshes and uses. |
| `Persons.PersonsSay` | internal/http/handlers/usage_env.go:315-369 | Every person carries per environment the sums of logins, refreshes and uses over the accounts of one key, a total that is logins plus refreshes plus uses, and as own total the sum over the environments. |
| `Persons.NameIsFirst` | internal/http/handlers/usage_env.go:322-338 | A person's name is the first non-empty name among the accounts, or empty when none has one. |
| `Persons.IdIsFirst` | internal/http/handlers/usage_env.go:322-338 | A person's account id is the first non-empty one among the accounts. |
| `Persons.AnswerOrdered` | internal/http/handlers/usage_env.go:371-379 | Totals descend; equal totals go by lower-cased name, then by account id. |
| `UsageLinks.SilentMulti` | internal/http/handlers/usage.go:741-792 | With several deployments, prod judged by "prod" and every other stage by "staging": an entry is listed exactly when the registry names it, that deployment was fetched, the label is that deployment's, and no fetched deployment of a stage naming the id saw it active. |
| `UsageLinks.SilentSingle` | internal/http/handlers/usage.go:741-792 | With one deployment every stage is judged by it, and entries carry no label. |
| `UsageLinks.LinksGoBy` | internal/http/handlers/usage.go:603-620 | Links go by slug; inside an app staging first, then prod, then the other stages by name. |
| `UsageLinks.UnnamedLinks` | internal/http/handlers/usage.go:575-601 | An id that no app names is linked only as `app:<slug>` of a registry app, and to no stage. |
| `UsageOverview.OverviewSilentMulti` | internal/http/handlers/usage.go:637-704 | The page's silent list with several deployments, over the replies themselves: named by the registry, its deployment replied and gives the label, and no deployment of a stage naming the id saw activity. |
| `UsageOverview.OverviewSilentSingle` | internal/http/handlers/usage.go:637-704 | The page's silent list with one deployment: the first reply judges every stage. |
| `UsageOverview.OverviewRows` | internal/http/handlers/usage.go:661-686 | The page has as many rows as the replies have clients, and for each client of each reply a row with that client's figures, the reply's key and title, and the app and stages the index links it to. |
| `UsageOverview.OverviewOrder` | internal/http/handlers/usage.go:709-737 | One deployment gives the table of descending logins, several the table of groups with deployments in their order. |
| `UsageOverview.OverviewNoLogin` | internal/http/handlers/usage.go:688-699 | An app is listed without login exactly when it names no client id at any stage. |
| `UsageOverview.LabelsMean` | internal/http/handlers/usage.go:641-659 | A deployment's label is its own title and its rank its own position. |
| `UsageRows.PlainTable` | internal/http/handlers/usage.go:726-737 | In the ungrouped table logins descend; equal ones go by name, then client id, then issuer. |
| `UsageRows.GroupedTies` | internal/http/handlers/usage.go:709-737 | Groups with equal sums go by group; in one environment of a group logins descend; a group is the app, else the name, else the client id. |
| `Text.CompareLexicographic` | internal/http/handlers/usage.go:603-620 | `strings.Compare` is the lexicographic order, a proper prefix first. |
| `UsageRange.RefusedExactly` | internal/http/handlers/usage.go:440-476 | Each refusal exactly by its cause, in order: an end that is no date, a start that is no date, a reversed range, and more than 366 days, with the number of days counting both ends, exact up to 106752 where the duration saturates. |
| `Calendar.MonthsMean` | internal/http/handlers/usage.go:440-476 | A date is valid exactly by the lengths of the months, leap years by the rule of 4, 100 and 400. |
| `Calendar.GregorianCycle` | internal/http/handlers/usage.go:440-476 | 400 years are 146097 days. |
| `Calendar.FormatMeans` | internal/http/handlers/usage.go:440-476 | A printed date has four digits of the year, two of the month and two of the day, with hyphens between. |
| `ClaimRender.HeadRendered` | internal/registry/render.go:94-154 | Every key of the rendered claim's head equals its own input field; `createdAt` is the current date only when the input has none; the auth keys are there exactly when something is set. |
| `ClaimRender.StagesRendered` | internal/registry/render.go:108-111 | Each stage is rendered under its own key with its own host, switch and environments of enabled components; `enabled: false` exactly for a disabled stage; only prod asks for a manual promotion. |
| `ClaimRender.ComponentRendered` | internal/registry/render.go:112-154 | Each enabled component's repository, memory, cpu, port, environment, secrets and probe stand under its own key; a disabled one has none. |
| `ClaimErrors.ClaimReports` | internal/registry/validate.go:52-144 | Every error `Validate` gives names a rule the claim breaks, with no rule before it in the order of the checks broken; the rules are written out with their limits as numbers. |
| `ClaimErrors.HeadReports` | internal/registry/validate.go:52-96 | Each error of the head names its own field's rule, the first broken one. |
| `ClaimErrors.ComponentReports` | internal/registry/validate.go:187-262 | Each error of a component names its own field's rule, the first broken one. |
| `ClaimErrors.EnvReports` | internal/registry/validate.go:264-325 | Each error of an environment names the first bad variable and the rule it breaks: at most 50 variables, 4096 characters, a valid and distinct name, a text or a reference but not both, a listed secret. |
| `ClaimErrors.QuantityReports` | internal/registry/validate.go:439-465 | Each refusal of a quantity by its cause: not of the pattern, not positive, or above 4 Gi of memory or 4 cores with the slack. |
| `ClaimErrors.HostRule` | internal/registry/validate.go:414-437 | A host passes exactly when it has 3 to 253 characters and every label between its dots is 1 to 63 lower-case letters, digits and inner hyphens. |
| `Patterns.SlugMeans` | internal/registry/parse.go:180-181 | A slug has 4 to 32 lower-case letters, digits and hyphens, a letter first and no hyphen last. |
| `Patterns.ClientIdMeans` | internal/registry/validate.go:28-31 | A client id is 36 characters, hyphens at 8, 13, 18 and 23, lower-case hexadecimal digits elsewhere. |
| `Patterns.LoginMeans` | internal/registry/validate.go:366-385 | A login has 1 to 39 letters, digits and hyphens, no hyphen at an end or beside another. |
| `Patterns.SecretKeyMeans` | internal/registry/validate.go:338-344 | A secret key has 1 to 253 letters, digits, `-`, `.` and `_`, is not `.` and does not begin with two dots. |
| `Patterns.ImageTagMeans` | internal/registry/validate.go:346-364 | A tag has 1 to 128 letters, digits, `-`, `.` and `_`, starts with none of `.` and `-`, and is not `latest`. |
| `Patterns.AuthScopeMeans` | internal/registry/validate.go:25-25 | A scope starts with a letter or digit and goes on with letters, digits, `-`, `.` and `_`. |
| `Quantity.UnitsMean` | internal/registry/validate.go:467-494 | The units: powers of 1000 and of 1024, one thousandth, and the caps of 4 Gi and 4. |
| `ClaimForm.FormSays` | internal/http/handlers/claim.go:84-177 | Every setting of a parsed claim comes from its own field of the form, for each stage and component by name. |
| `ClaimForm.FormErrors` | internal/http/handlers/claim.go:182-241 | A refused form has, at a checked component, the defect the error names. |
| `EnvLines.ParseReports` | internal/registry/textinput.go:17-62 | The first bad line is reported by its number: no `=`, a name used before, or a reference without both sides. |
| `EnvLines.ParseGathers` | internal/registry/textinput.go:17-62 | The text is accepted exactly when no line is bad, and then gives the variable of every line that has one, in order. |
| `EnvLines.PlainLine` | internal/registry/textinput.go:26-54 | A line with `=` and without the prefix `secret:` is a plain value, both sides trimmed. |
| `EnvLines.ReferenceLine` | internal/registry/textinput.go:40-54 | With the prefix it is a reference, cut at the first slash, if there is something on both sides. |
| `EnvLines.FieldsExactly` | internal/registry/textinput.go:81-96 | A list of names is split at its separators and nothing between them is lost. |
| `Sparkline.EntryExactly` | internal/metrics/store.go:223-242 | An entry is a numeral with nothing but white space around it. |
| `Decimal.ParseIntExactly` | internal/metrics/store.go:223-242 | What parses is exactly an optional sign and digits whose value fits into 64 bits, and the result is that value. |
| `ClaimPR.UnclaimedExactly` | internal/github/pr.go:94-105 | A slug is free exactly when the tree has nothing at `tags/<slug>` or below it, and neither a file nor a directory at any path of the claim. |
| `ClaimPR.RepoNameExactly` | internal/github/pr.go:165-201 | A repository name is an owner without slash, a slash, and something after it. |
| `ClaimGuard.RequestPasses` | internal/http/handlers/claim.go:455-480 | The request made for an accepted claim is complete, on the branch `feat/claim-<slug>` and based on main. |
| `ClaimGuard.RequestCarries` | internal/http/handlers/claim.go:319-335 | It carries `apps/<slug>.yaml` with the rendered claim and every tag file. |
| `ClaimGuard.TagFileGuards` | internal/github/pr.go:94-105 | A base tree that has any tag file any claim of the slug renders to refuses every request for that slug, whatever stages and files the request brings. |
| `ClaimGuard.SlugIsClaimedOnce` | internal/github/pr.go:72-163 | Once a claim's branch is merged no claim of the same slug finds it free. |
| `BootstrapRun.UndisturbedRun` | internal/repobootstrap/bootstrap.go:48-147 | An undisturbed run with all templates embedded on a repository with no file in the way: each of the six files that is missing, with its equivalents, gets the text of its own template, the release configuration with the slug filled in. |
| `BootstrapRun.UndisturbedProtection` | internal/repobootstrap/bootstrap.go:149-190 | After such a run main is protected, with the protection it had or else the minimal one. |
| `BootstrapRun.NothingElse` | internal/repobootstrap/bootstrap.go:48-65 | Under any failures a run adds no file but these six. |
| `BootstrapRun.ActionsNamed` | internal/repobootstrap/bootstrap.go:48-147 | The seven actions carry these names in this order, whatever fails. |
| `Bootstrap.PlacedFiles` | internal/repobootstrap/bootstrap.go:67-147 | What in place means, file by file, with a protected main. |
| `Bootstrap.StepWithoutFaults` | internal/repobootstrap/bootstrap.go:199-260 | With proper answers a step skips what is there, creates its file otherwise, and fails only when the path is taken by a directory. |
| `Bootstrap.ContentIs` | internal/repobootstrap/bootstrap.go:208-260 | Templates are written as embedded; only the release configuration has its placeholder replaced by the slug. |
| `Bootstrap.ReplaceAllFirst` | internal/repobootstrap/bootstrap.go:208-260 | Every occurrence is replaced, from the left. |
| `Bootstrap.AnyFileVerdict` | internal/compliance/checks.go:69-97 | Under any failures: a pass exactly when some candidate is found, else an error when some probe failed other than by not found, else a fail. |
| `Bootstrap.ProtectionVerdict` | internal/compliance/checks.go:99-118 | With a proper answer a pass exactly when main is protected and a fail otherwise; a failure is never a pass, and a fail exactly when it reads as not found. |
| `Bootstrap.ChecksExactly` | internal/compliance/checks.go:19-67 | With proper answers the three checks say exactly whether these files exist and main is protected. |
| `ScopeCache.EffectiveTtl` | internal/ewwsauth/client.go:129-143 | A positive time to live counts; otherwise it is five minutes. |
| `Drift.RowSays` | internal/drift/scanner.go:60-91 | A readable app's row carries each stage's own tag, the time of the scan, and the number the compare API gave for prod as base and staging as head; zero when the comparison was not asked for or gave no number. |
| `Drift.ReadableExactly` | internal/drift/scanner.go:38-58 | An app is readable exactly when its address parses and neither tag file failed. |

## Left out

- Persons: `strings.ToLower` is a parameter on characters, `*UsagePerson` values are map values, so aliasing of the pointers is not modelled; neither is the hint text.
- FanOut: the budget and the timeouts are events, not durations; a panic inside a goroutine is not modelled.
- Quantity.Check: floating-point rounding, underflow and overflow of `ParseFloat` are replaced by exact reals.
- AcceptedKeepsSchema: `format: uri` is not part of the schema predicate (only `^https://`), and the claim stops at the datatype before YAML is written.
- ClaimValidate.ValidateRepoUrl: `url.Parse` is a parameter; the loop over its literal characters is modelled.
- ClaimForm.ParseClaimForm: the two client ids that `NewClientIDs` draws are inputs, and the state kept for showing the form again is not modelled.
- ClaimPR.OpenClaimPR: titles, author data and the text of the pull request carry no proof obligation; a 404 for a path is taken to mean that the path is absent.
- ClaimRace.AtMostOneWinner: the two reads of the base commit and its checks are single steps, which is no loss because a commit never changes.
- Bootstrap.Run: nobody else changes the repository during a run; commit messages are not modelled.
- ScopeCache.Client.Scope: the HTTP fetch is a parameter; a change of `CacheTTL` while the client is used is not modelled.
- Drift.RunOnce: a registry that cannot be read ends the scan before the table is touched and is not modelled; the SQL store is a map.
- UsageOverview.BuildUsageOverview: display fields copied without a decision are not modelled.
- `fetchPerEnv` repeats the fan-out without semaphore or counter, and `addVisits` and `applyVisits` copy fields by slug: easy members beside `FanOut` and `UsageOverview`.
- HTTP handlers, sessions, templates, YAML and JSON encoding, Prometheus queries, configuration, environment tabs and the remaining display helpers.
- Strings are sequences of Unicode scalar values; invalid UTF-8 is not modelled.
