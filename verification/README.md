# Underwriting workbench: a verified model

The workbench takes a submission, assesses it against a versioned appetite ruleset, prices it with a
versioned rate table, and binds it: a policy is opened, submitted and activated in a separate policy
service, a bound-risk event is published, and a binding row is committed. This project models those
parts in Dafny and proves what they promise. `dafny verify dfyconfig.toml` checks all of it.

## The parts

* **Decimals** (`Numerals`, `Decimals`, `DecimalValue`, `DecimalText`): decimal arithmetic in Python's
  default context, 28 significant digits rounded half to even, as coefficients and exponents; its value
  as a real number; its text form and back.
* **Rating** (`RatingEngine`, `RatingTables` and the modules of laws): the staged computation and its
  printed trail, the stored tables, and four kinds of laws: exactness against a closed formula
  (`RatingValue`), a bound on the drift where digits run out (`RatingDrift`), order
  (`RatingMonotone`), and what the trail says (`RatingLaws`, `RatingTrail`). `RatingV1` and `RatingV2` are
  about the stored tables, and `RatingPlain` writes their amounts and lines out and says when there is no
  price. `RatingCents` says when the reported cents are right although digits were lost; `RatingHalfCent` and
  `RatingFullCent` are prices where it shows.
* **Appetite** (`Appetite`): the tiers of the verdict and the meaning of its reasons.
* **Tables and use-cases** (`Store`, `Lifecycle`, `Workbench`): rows are only appended and stamped from a
  strictly increasing clock. `Lifecycle` says what each use-case commits as a function of the tables;
  the class in `Workbench` does it step by step and is proved to leave exactly those tables. `UseCases` says
  what each answer means in terms of the stored rows and the entered fields alone, and `Journey` follows a
  risk from intake to policy under the stored rules.
* **History** (`History`, `HistoryRuns`, `HistoryLaws`): requests one at a time. An invariant over every
  such run, and what it means for the audit log, for stored decisions and quotes, and for bound risks.
* **Inbox** (`Inbox`): the query behind the submission list as a relation between tables and answers,
  the loop that fills the items, and the paging.
* **Binding** (`BindProtocol`, `BindSafety`, `BindCompletion`, `BindSerial`, `BindDuplicates`,
  `BindExample`, `BindHistory`, `BindEvents`, `BindTerms`): one attempt is a state machine that takes one
  external step at a time over three stores that share no transaction. `Run` interleaves any number of
  attempts, deaths between any two steps, and other requests that do not even honour the freeze. `BindAlone`
  is one attempt on its own, and `BindSerial` joins it to the serial history; `BindHistory` carries the stored
  rows through the interleaved runs, `BindEvents` counts the events of each attempt, and `BindTerms` follows
  the cover dates.
* **Clients** (`PolicyClient`, `Publisher`, `Token`): the policy client with its conflict lookup, the
  bounded retry, and the token cache.

The digest behind a policy number is a parameter. Where a result needs two quotes to have different
numbers it says so with `NoCollision`. The policy service is driven by these attempts alone, gives fresh
ids, refuses a number it already has, and answers a transition from the wrong state with a conflict that
changes nothing.

## Where the code and its promises part

* The engine's documentation says the premium is rounded once. The default decimal context rounds every
  result beyond 28 digits as well. `ExactIffLossless` is the exact condition: all results are exact if and
  only if the digits dropped from them are zeros. `PremiumWithinACent` says how far off a premium can be
  otherwise, `PremiumExactIff` when it is right all the same, and `RatingHalfCent.RoundedTwice` is a risk the
  second table prices a cent too high. The first table never loses a digit
  (`V1PricedExactly`), and the second loses none on any risk the first ruleset accepts (`V2PricedExactly`,
  `BoundRisksArePricedExactly`).
* The same rounding can put the reported taxes a whole cent off the fee and tax (`TaxesOffByACent`).
  `TaxesWithinACentIff` is the exact condition, `FeeIsReportedIff` the same on the raw sum where only a fee is
  charged. The stored tables are safe over every 64-bit insured value (`V2TaxesWithinACent`, and
  `V1PricedExactly`, whose taxes are zero).
* One policy per quote does not give one policy per submission. A quote made between a dead bind and its
  retry changes the number, and the first policy stays active with its event and no binding
  (`OneSubmissionTwoPolicies`). `SecondPolicyIff` is the exact condition, and it can be checked before
  the create.
* The cover dates are those of the day of the attempt. A retry on another day announces its own dates, while
  the policy keeps those of the attempt that opened it; `DatesAgreeIff` is the exact condition.
* Completion of a retry rests on the conflict lookup. The contract in
  `tests/contract/policy_service_openapi.yaml` has no filter by policy number and pages its list, so the
  page may not show the policy. `CompletesIff` is the exact condition, and `RetryFailsUnlisted` a run after
  which the retry fails.
* That contract also names no submitted status; the model follows the client, which submits between
  create and activate.
* The inbox joins every decision that shares the greatest time of its submission, so tied times list a
  submission more than once (`TiedDecisionsRepeat`, `JoinedOncePerTie`).
* `app/api/deps.py` builds a token provider for each request, so the cache of `Token` only ever serves
  the calls of one bind.

## Model

| member | source | states |
|---|---|---|
| DecimalValue.FixMono | app/rating/engine.py:171-240 | rounding to the 28-digit half-even context never reverses the order of two decimals, of either sign |
| DecimalValue.FixError | app/rating/engine.py:171-240 | one context rounding moves a value of either sign by at most one part in 2 * 10^27 |
| DecimalValue.FixLossless | app/rating/engine.py:171-240 | context rounding keeps the value of a result exactly when the digits it drops are zeros |
| DecimalValue.FixNearestEven | app/rating/engine.py:171-240 | a result of more than 28 digits keeps the nearest 28, and of two equally near the even one, for either sign |
| DecimalValue.HalfUpValue | app/rating/engine.py:151-153 | rounding to whole cents is floor(x + 1/2) for non-negative amounts and its mirror image for negative ones, whatever the coefficient and exponent |
| DecimalText.ParseStr | app/rating/engine.py:82-106 | reading the text a decimal prints gives back the same coefficient and exponent, for every decimal |
| DecimalText.ExponentParses | app/rating/engine.py:82-106 | a mantissa and an exponent are read after a letter of either case |
| DecimalText.PlusParses | app/rating/engine.py:82-106 | a leading plus changes nothing |
| DecimalText.ExponentIff | app/rating/engine.py:173-195 | a decimal is printed with an exponent exactly when its own exponent is positive or the number is below 10^-6 |
| DecimalText.ParsesOnly | app/rating/engine.py:82-106 | only digits, signs, points and exponent letters, with a digit among them, read as a decimal |
| RatingEngine.RateLossCost | app/rating/engine.py:171-195 | the loss-cost loop reaches the subtotal and prints the lines of the path base, occupancy, gated adjustments, and fails only when a line has too many digits to show |
| RatingEngine.RateTechnical | app/rating/engine.py:197-207 | the technical loop continues that path with the positive loadings, in order |
| RatingEngine.RateCommercial | app/rating/engine.py:209-223 | the commercial stage refuses exactly the adjustments outside the band and otherwise takes one step unless the adjustment equals one |
| RatingEngine.RateTaxes | app/rating/engine.py:225-238 | the fee and the tax, each only when positive, the tax on the commercial subtotal before the fee |
| RatingEngine.Rate | app/rating/engine.py:156-250 | the staged computation answers exactly the price, or the error, of the specification the laws below are about |
| RatingPlain.PriceMeans | app/rating/engine.py:156-250 | there is a price exactly when the table lists the occupancy, every subtotal can be shown in 28 digits, and the commercial adjustment is one or inside the band, edges included; otherwise the error is the first the engine meets; the price names the table's version and euros |
| RatingValue.PremiumClosed | app/rating/engine.py:9-17 | on real numbers the steps of the engine, in their order and with each loading factor as it is before rounding, come to the documented closed formula, for every table |
| RatingValue.ExactIffLossless | app/rating/engine.py:23-24 | every intermediate result (rate, base, each 1 + pct, each product, the tax, each sum) is the exact one if and only if context rounding drops nothing but zeros from any of them: the exact condition under which the subtotal is rounded once |
| RatingValue.PricedExactly | app/rating/engine.py:159-162 | under that condition the four totals and every printed line are the half-ups of the exact amounts |
| RatingCents.ShownExactlyIff | app/rating/engine.py:159-162 | whatever digits were lost, the amount printed after any step of a non-negative table is the half-up of the exact one if and only if no half cent lies between the unrounded subtotal and the exact amount |
| RatingCents.PremiumExactIff | app/rating/engine.py:159-162 | the same of the premium and its closed formula |
| RatingDrift.SubtotalDrift | app/rating/engine.py:171-240 | for any non-negative table every subtotal stays within 2 + 2n parts in 10^27 of the exact one after n steps, the rounding of the loading factors included |
| RatingDrift.PremiumWithinACent | app/rating/engine.py:159-162 | for any non-negative table whose drift is below a cent, context rounding moves the premium by at most one cent from the half-up of the exact premium, and only when that is next to a half cent |
| RatingTables.V1Reads | app/rating/repository.py:28-41 | the first stored table reads as the loss-cost table with every later loading neutral |
| RatingTables.V2Reads | app/rating/repository.py:43-57 | the second stored table reads as the first with the technical, commercial and tax parameters added |
| RatingTables.ReadsIff | app/rating/engine.py:82-106 | a stored table can be read exactly when each decimal it gives is one, and a parameter it omits never stands in the way |
| RatingTables.FlagsMean | app/rating/service.py:40-47 | the loading above five million euros and not at it, the discount when the cover mentions a sprinkler in whatever letter case, and no other flag |
| RatingPlain.PlainAmounts | app/rating/repository.py:28-57 | the closed formulas of the stored tables in plain numbers: half a per mille, the listed factors, 1.10, 0.95, 1.15, 1.06, 1.04, nine per cent and fifty euros |
| RatingPlain.GateMeans | app/rating/engine.py:189-191 | an adjustment without a gate always counts, and one with a gate exactly when its flag is set |
| RatingPlain.V2Lines | app/rating/engine.py:173-238 | title, kind, value text and stage of every line the second table prints, in order, for every listed occupancy and flag set |
| RatingPlain.CommercialLine | app/rating/engine.py:211-220 | an adjustment other than one prints one line of the commercial stage, as a discount exactly when it is below one |
| RatingV2.V2NeverRounds | app/rating/repository.py:48-57 | on the second table no intermediate result up to 10^13 cents of insured value needs more than 28 digits, for every listed occupancy and every flag set |
| RatingV2.V2Prices | app/rating/engine.py:156-250 | the second table prices every insured value of a 64-bit column, with no error |
| RatingV2.V2PricedExactly | app/rating/engine.py:156-250 | up to 10^13 cents the second table's premium, stage totals and printed lines are half-ups of the exact rationals |
| RatingV2.V2WithinACent | app/rating/engine.py:156-250 | up to 2^63-1 cents the premium fits a signed 64-bit column and is within one cent of the half-up of the exact premium |
| RatingMonotone.PriceMonotone | app/rating/engine.py:164-238 | more insured value and possibly more loading flags never lower the premium or any of the four stage totals, context rounding included |
| RatingMonotone.LargerTivNeverCheaper | app/rating/service.py:40-47 | through the flag derivation too, across the strict five-million threshold, a larger insured value is never cheaper at any stage |
| RatingLaws.TrailReconciles | app/rating/engine.py:171-250 | the stages of the printed lines are in order, each stage total is what the last line at or before it shows, the last line is the premium, and taxes are the difference to the commercial premium |
| RatingLaws.StagesGrow | app/rating/engine.py:195-240 | with non-negative parameters the pure premium is at most the technical premium and taxes are not negative |
| RatingLaws.TaxesWithinACent | app/rating/engine.py:225-249 | where no result loses anything, the reported taxes are strictly less than one cent from the exact fee plus tax |
| RatingCents.TaxesWithinACentIff | app/rating/engine.py:225-249 | for every non-negative table the reported taxes are strictly within a cent of the exact fee and tax if and only if premium and commercial premium are off by the same number of cents, or by one more on the side whose exact amount gained less from its rounding |
| RatingCents.MissNeedsHalfCents | app/rating/engine.py:225-249 | a miss of a cent or more needs both exact totals within the drift of a half cent, on opposite sides |
| RatingCents.TaxesWithinACentIfClear | app/rating/engine.py:225-249 | so if either closed formula is clear of half cents by the drift, the taxes are strictly within a cent |
| RatingCents.FeeIsReportedIff | app/rating/engine.py:225-249 | a table that charges only a fee reports exactly its fee, or misses it by a cent or more; it reports it if and only if no half cent lies between the sum with the fee and what the context makes of it |
| RatingCents.V2TaxesWithinACent | app/rating/repository.py:48-57 | on the second table, over every 64-bit insured value, the reported taxes are strictly within a cent of the exact fee and tax |
| RatingLaws.TaxesNearExact | app/rating/engine.py:225-249 | for every non-negative table, context rounding included, the reported taxes are within one cent and the drift of the two totals of the exact fee plus tax |
| RatingFullCent.TaxesOffByACent | app/rating/engine.py:225-249 | a table of 28-digit factors on which the reported taxes are one whole cent over the exact fee, because the sum with the fee loses a digit |
| RatingLaws.NeutralIsLossCost | app/rating/engine.py:19-21 | a table without loadings prices at loss cost: only loss-cost lines, no taxes, one premium in every stage |
| RatingV1.V1NeverRounds | app/rating/repository.py:28-41 | on the first table no result has more than 28 digits for any 64-bit insured value, and every such value has a price |
| RatingV1.V1PricedExactly | app/rating/repository.py:28-41 | the first table prices every such value at the half-up of the exact loss cost, in every stage, with no taxes |
| RatingLaws.OrderDoesNotMatter | app/rating/engine.py:189-193 | while nothing is lost, permuting a table's adjustments changes none of the totals |
| RatingLaws.UnnamedFlagsIgnored | app/rating/engine.py:189-191 | flags no adjustment names change nothing, not even the trail |
| RatingLaws.V2NeverCheaper | app/rating/repository.py:48-63 | on the second table a larger 64-bit insured value always has a price and never a lower one |
| RatingHalfCent.RoundedTwice | app/rating/engine.py:23-24 | on the second table, retail, sprinklered, insured for 1274467188324564974 cents: the context takes the last sum up to a half cent and the final rounding up again, one cent over the half-up of the exact premium |
| RatingTrail.RateReadsBackIff | app/rating/engine.py:229-236 | a printed tax percentage reads back to the value of the rate exactly when the rate loses nothing in 28 digits |
| RatingTrail.LongRateIsLost | app/rating/engine.py:229-236 | a rate of 29 digits whose printed percentage reads back to another value |
| RatingTrail.TrailReplays | app/rating/engine.py:176-240 | the printed values alone, with the insured value, rebuild the value of the unrounded premium and the premium, for every table whose charged tax rate loses nothing in 28 digits, and digit for digit when the percentage fits too |
| RatingTrail.TrailDeterminesPremium | app/rating/engine.py:176-240 | two prices of one insured value that print the same lines have the same premium, for any two tables whose charged tax rates lose nothing in 28 digits |
| Appetite.AssessRisk | app/appetite/rules.py:46-71 | the tiered collection with its early returns gives the verdict the fields of the risk and of the ruleset call for |
| Appetite.VerdictMeans | app/appetite/rules.py:46-71 | decline exactly when the country is on the sanctions list in whatever letter case or the occupancy is excluded, else refer exactly when the line of business is not allowed or the insured value above the limit; the reasons are the broken rules of the deciding tier, in order |
| Appetite.StoredVerdictMeans | app/appetite/rules.py:26-34 | the same in terms of the lists and the limit of the stored payload |
| Appetite.TighterNeverSofter | app/appetite/rules.py:46-71 | tightening a ruleset or raising the insured value never moves a verdict toward acceptance |
| Appetite.CaseDoesNotMatter | app/appetite/rules.py:48-52 | neither the case of the risk's country nor of the sanctions list matters |
| Appetite.AnySpellingWillDo | app/appetite/rules.py:48-52 | the country in lower or in upper case gets the same verdict and reasons |
| Store.LatestFound | app/submission/service.py:70-73 | latest-wins reads give a row of the submission with the greatest time, and nothing exactly when it has no row |
| Store.LatestAppend | app/rating/repository.py:158-165 | a row inserted at a later time is the latest of its submission and leaves the others' latest rows alone |
| Lifecycle.ManifestReadsBack | app/rating/service.py:82-88 | the stored facts of a quote read back as the facts the submission was priced on |
| UseCases.ManifestMeans | app/rating/service.py:82-88 | the manifest holds the value and the occupancy as entered, the flags in alphabetical order, and a neutral adjustment |
| UseCases.IntakeMeans | app/submission/service.py:31-60 | an intake is refused exactly when its id is taken; otherwise the stored row has the fields as entered and the country in capitals, the id finds it, the log has its creation with who entered it, and nothing else changes |
| UseCases.AssessMeans | app/submission/service.py:118-166 | an assessment fails only for an unknown submission or without a ruleset; else it records the verdict of the highest stored version on the stored fields, that version, and who asked |
| UseCases.FactsMean | app/rating/service.py:40-47 | the priced facts are the stored value and occupancy, the two flags by their conditions, and no adjustment |
| UseCases.QuoteMeans | app/rating/service.py:50-113 | a quote is refused to an unknown or unassessed submission and to one whose latest decision declines, and to no other; else the answer is what the highest stored table makes of the stored fields, with manifest and who asked |
| UseCases.GuardMeans | app/bind/service.py:123-136 | a bound submission is answered with its own binding; a bind proceeds on a quote if and only if the submission is stored and unbound, its latest decision accepts it and this is its latest quote; each refusal has its condition |
| UseCases.RouteMeans | app/api/routes.py:91-130 | the routes refuse as already bound exactly the assessments and quotes of bound submissions, and otherwise do what the service does |
| UseCases.SeedMeans | app/main.py:54-57 | startup adds the first ruleset and the first table where none is stored and the second table where version 2 is missing, with their payloads, and nothing else |
| Journey.QuoteIsGiven | app/rating/service.py:50-113 | a stored, unbound submission with a listed occupancy and a 64-bit insured value gets a quote from the second table whenever it is assessed and not declined, a referred one too, at the premium of its stored fields |
| Journey.FromIntakeToQuote | app/rating/service.py:50-113 | in any reachable tables with the stored rules on top, a new risk taken in, assessed and quoted: the outcome its entered fields call for, no quote if declined, else a quote at the premium of its entered fields, and, if accepted, it may be bound on it |
| Journey.FromIntakeToPolicy | app/bind/service.py:109-188 | an accepted one is then bound: one new binding, an active policy under the number of the quote with the entered counterparty and the cover dates, and the announcement of the exact premium as often as the broker took it |
| Workbench.Workbench.Append | app/audit/repository.py:31-50 | the audit log grows by this entry at the end and nothing else changes but the clock |
| Workbench.Workbench.CreateSubmission | app/submission/service.py:31-60 | the new tables: the submission with every field as entered and its country in capitals, its first audit entry, and nothing else; or a refusal that changes nothing; the invariant of the history is kept |
| Workbench.Workbench.AssessSubmission | app/submission/service.py:118-166 | the new tables: one decision row and its audit entry; or the missing submission or ruleset, and no change; the decision is the verdict of the highest stored ruleset on the stored fields |
| Workbench.Workbench.FactsOf | app/rating/service.py:40-47 | the flags come out as the insured value and the cover wording demand |
| Workbench.Workbench.QuoteSubmission | app/rating/service.py:50-113 | the new tables: one quote row with price and manifest and its audit entry; or the first failing guard, and no change; each guard fails exactly on its condition over the stored rows |
| Workbench.Workbench.CreateRuleset | app/appetite/repository.py:49-53 | the version is added and nothing else changes; one that exists is refused and left as it is; the invariant of the history is kept |
| Workbench.Workbench.CreateRateTable | app/rating/repository.py:93-97 | the version is added and nothing else changes; one that exists is refused and left as it is; the invariant of the history is kept |
| Workbench.Workbench.Startup | app/main.py:54-57 | the three seeds in their order give the seeded tables, and keep the invariant of the history |
| Workbench.Workbench.PostAssess | app/api/routes.py:91-104 | the route refuses a bound submission and otherwise does what the service does, and keeps the invariant of the history |
| Workbench.Workbench.PostQuote | app/api/routes.py:128-142 | the route refuses a bound submission and otherwise does what the service does, and keeps the invariant of the history |
| Workbench.Workbench.AddBinding | app/bind/repository.py:42-63 | one binding row and its audit entry, refused exactly when the submission or the number is already bound |
| Workbench.Workbench.ReadForBind | app/bind/service.py:123-138 | the guard reads, in order: unknown submission, its own binding, decision not accepted, no quote, or the quote to bind, each exactly on its condition over the stored rows |
| Workbench.Workbench.BindSubmission | app/bind/service.py:109-188 | for every way the external calls may be answered, the tables, the policies, the events and the answer are those of the attempt machine on the same calls |
| Workbench.Workbench.PostBind | app/api/routes.py:158-189 | the bind route: as the service, and whatever the calls answered, the history and the three stores stay in order |
| HistoryRuns.RunsAreValid | app/submission/service.py:118-166 | in every serial run every decision and quote replays from its recorded version, every audit log replays to the current state, and every binding fits |
| HistoryLaws.ReplayMeans | app/audit/repository.py:31-57 | an audit log that replays is one creation, then assessments and quotes, each quote under a last assessment that does not decline, then at most one bind at the end; and the replay counts it |
| HistoryLaws.AuditTellsTheState | app/audit/repository.py:31-57 | in every serial run a submission's log has that shape, its last entry of each kind says what the latest row says and by whom, and entries are as many as rows |
| HistoryLaws.ServeExtends | app/rating/service.py:61-63 | every table only grows at its end, whatever the actions |
| HistoryLaws.StoredRowsReplayForever | app/rating/repository.py:93-97 | a stored decision or quote is still computed by its recorded version after any later serial actions, versions and restarts |
| BindHistory.StoredRowsReplayForever | app/rating/repository.py:93-97 | the same over every interleaved run, with overlapping and dying binds and with requests behind no guard |
| HistoryLaws.BoundIsFrozen | app/api/routes.py:91-93 | once a submission is bound no action changes its decisions, quotes, audit log or binding |
| HistoryLaws.BoundRisksAreWithinAppetite | app/bind/service.py:131-133 | a bound submission has one binding, of its latest quote, under a latest acceptance; its line of business is allowed, its value within authority, its occupancy not excluded and its country not sanctioned by the recorded ruleset |
| HistoryLaws.BoundRisksArePricedExactly | app/rating/repository.py:48-57 | a risk bound under the first ruleset and quoted by the second table carries the half-up of its exact premium |
| HistoryLaws.HighestVersionIsCurrent | app/rating/repository.py:84-97 | a new highest version becomes current, a lower one does not, and both can be read back |
| HistoryLaws.SeedSettles | app/rating/repository.py:173-195 | startup leaves a current ruleset and the second table, overwrites nothing, and does nothing when repeated |
| Inbox.InboxAgrees | app/submission/service.py:76-102 | with no two submissions at one time and no two decisions of one at its greatest, in whatever order they were inserted, every answer the grouped-max join permits is the one list of matching submissions, newest first, each with its latest decision and its bound flag |
| Inbox.InboxAgreesInOrder | app/submission/service.py:76-102 | where rows are stamped in the order of insertion, that list is the submissions from last to first |
| Inbox.ListSubmissions | app/submission/service.py:76-115 | item k of a page is item offset + k of the filtered newest-first list, and a page has as many items as the limit and the list leave, for every limit and offset |
| Inbox.PageMeans | app/submission/service.py:102-102 | for every limit and offset item k of a page is item offset + k of the rows, and the page has as many items as both leave |
| Inbox.ItemMeans | app/submission/service.py:104-115 | an item has no outcome exactly when its submission has no decision, else that of a latest decision of its own, and is marked bound exactly when a binding names it |
| Inbox.ListedOnce | app/submission/service.py:82-84 | a submission is listed exactly when its latest outcome matches the filter, once, newest first |
| Inbox.PagesCover | app/submission/service.py:102-102 | consecutive pages put together are the list up to where they end |
| Inbox.JoinedOncePerTie | app/submission/service.py:86-99 | a submission is always joined, and joined once exactly when no two of its decisions share its greatest time |
| Inbox.OneRowEach | app/submission/service.py:86-102 | the unfiltered inbox has at least one row for each submission, and as many rows as submissions exactly when none has two decisions at its greatest time |
| Inbox.RepeatsIff | app/submission/service.py:86-102 | in every answer, filtered or not, a submission has two rows or more exactly when two of its decisions share its greatest time and both pass the filter |
| Inbox.TiedDecisionsRepeat | app/submission/service.py:86-99 | two decisions at the same time list their submission twice |
| PolicyClient.PolicyServiceClient.ResolveExisting | app/bind/policy_client.py:101-116 | the scan returns the first listed policy with the number |
| PolicyClient.PolicyServiceClient.CreatePolicy | app/bind/policy_client.py:76-99 | a draft under a fresh id, or on a conflict the existing policy if the lookup shows it; a lost answer keeps the effect and fails |
| PolicyClient.PolicyServiceClient.Move | app/bind/policy_client.py:124-133 | a transition moves the policy only from the right state, is benign from a later one, and fails for an unknown policy |
| Publisher.BoundRiskPublisher.Publish | app/bind/publisher.py:64-85 | success exactly when one of the bounded tries is answered, then the event is on the log; at most max(1, max_attempts) copies of this event, and nothing else, are added |
| Publisher.AnsweredIsSent | app/bind/publisher.py:64-85 | an answered try has put a copy on the log, there are never more copies than tries, and no copies means no try was taken |
| Publisher.TryCounts | app/bind/publisher.py:64-85 | each further try adds a copy exactly when no earlier try was answered and the broker takes the message |
| BindSafety.DoFits | app/bind/service.py:138-188 | every external step of an attempt keeps all stores and the attempt itself in the invariant |
| BindSafety.DeliveredCounts | app/bind/service.py:149-162 | an attempt accounts for every event it adds, all of them equal, and nothing but publishing adds one |
| BindEvents.LogGrowsByTakes | app/bind/service.py:149-162 | a step of an interleaved run adds to the log what its own attempt adds, and no other step adds anything |
| BindEvents.AttemptDeliversFew | app/bind/publisher.py:64-85 | in every interleaved run the steps of one attempt since its begin put at most max(1, max_attempts) copies on the log, all of its own event |
| BindSafety.RunsAreSafe | app/bind/service.py:109-188 | in every run of overlapping and dying attempts: at most one binding per submission and per number, at most one policy per number, an active policy behind every attempt past activate, every event and every binding; a binding names a quote of its submission under the number of that quote, and a publish it claims happened |
| BindSafety.OnlyForward | app/bind/policy_client.py:118-133 | along every run no policy disappears, changes its terms or falls back in status, and no binding or event is lost |
| BindSafety.EventsAgree | app/bind/service.py:149-158 | two events with the same policy number agree on submission, quote, premium, currency and product, over all deaths, retries and duplicates |
| BindSafety.BoundPolicyIsItsOwn | app/bind/service.py:97-106 | the policy a binding points to is active, carries its number, and was opened for the holder and product of the binding's own submission |
| BindTerms.DatesWereAsked | app/bind/service.py:97-106 | in every run each policy has the holder of a submission and the cover dates of some bind begun for it, and each event those of a bind of the submission it names |
| BindTerms.FirstBindOpens | app/bind/service.py:138-188 | a completed bind whose number was free: the policy, active, with number, holder, product and dates; the binding; and the event, field by field |
| BindTerms.DatesAgreeIff | app/bind/service.py:141-158 | the event of a completed bind has the dates of the policy it bound if and only if no policy with the number was there before with other dates |
| BindTerms.ProductMeans | app/bind/service.py:81-82 | the product code of each known line of business, and the line itself in capitals otherwise |
| BindCompletion.PublishingEnds | app/bind/publisher.py:64-85 | the tries of an attempt, taken one step at a time, end published with the verdict and the copies of the retry loop |
| BindCompletion.CompletesIff | app/bind/service.py:140-188 | whatever dead attempts left behind, an undisturbed attempt past its guards commits exactly when its number is free or the lookup shows its policy, and otherwise fails with the conflict and changes nothing |
| BindCompletion.AskingAgain | app/bind/service.py:125-128 | binding a bound submission answers with its binding and touches no store, whatever the calls |
| BindCompletion.AnswersOwnBinding | app/bind/service.py:109-188 | in every reachable state, whatever the calls, a bind that is answered is answered with a binding of its own submission, stored before or committed now on a quote it may be bound on |
| BindCompletion.BindsOnce | app/bind/service.py:109-188 | from every reachable state in which a stored, unbound submission has an accepting latest decision and a latest quote, a completed attempt leaves the one binding of that quote, and every later bind returns it with all stores unchanged |
| BindSerial.HandleIsAction | app/bind/service.py:164-188 | a bind that may die anywhere does to the tables what its commit does, or nothing |
| BindSerial.AloneIsARun | app/bind/service.py:109-188 | a bind on its own is one of the interleaved runs, next to any other live attempts |
| BindSerial.SerialIsARun | app/api/routes.py:158-189 | every serial run of requests and dying binds is a run of the machine |
| BindSerial.SerialRunsAreSound | app/bind/service.py:109-188 | along every serial run with dying binds both invariants hold |
| BindSerial.BindKeepsBoth | app/bind/service.py:109-188 | one bind, wherever it dies, keeps the history and the stores in order and loses nothing |
| BindSerial.BoundStaysFrozen | app/api/routes.py:128-130 | in serial runs with dying binds, a bound submission's rows never change again |
| BindDuplicates.SecondPolicyIff | app/bind/service.py:138-145 | a create keeps one policy per submission exactly when its number already has one or the submission has none under any of its quotes' numbers |
| BindDuplicates.QuoteInBetweenLeavesAPolicy | app/bind/service.py:71-78 | from every state where a bind may start, a bind that dies, a further quote and a second bind leave two active policies of one submission, the first with an event and no binding |
| BindExample.OneSubmissionTwoPolicies | app/bind/service.py:71-78 | a run from the empty tables that ends that way, with the event of the first policy on the log |
| BindDuplicates.RetryMissesItsPolicy | app/bind/policy_client.py:92-98 | after a bind that died past its create, a retry whose lookup page does not list the policy fails with the conflict and changes nothing |
| BindExample.RetryFailsUnlisted | app/bind/policy_client.py:92-98 | a run from the empty tables, for any digest, after which every such retry fails that way |
| Token.ClientCredentialsTokenProvider.Token | app/bind/token.py:47-68 | the cached token while more than thirty seconds are left, otherwise a new one with its expiry; a failed fetch changes nothing |
| Token.NoStaleToken | app/bind/token.py:49-50 | over any run a token that is not fresh from this call was granted earlier and has more than thirty seconds left |
| Token.AnswersIff | app/bind/token.py:47-68 | a call is answered exactly when the cached token is still good or the endpoint grants one, and a good token is served without asking |
| Token.ServedUntil | app/bind/token.py:47-68 | a fetched token is the answer up to thirty seconds before its lifetime ends, three hundred seconds when none is given, and from then on a call fetches |
| Token.FewFetches | app/bind/token.py:47-68 | on a monotone clock with lifetimes of at least m > 30 seconds, a span of T seconds has at most 1 + T/(m - 30) successful fetches |

## Left out

- HTTP, NATS, asyncio and OAuth transport, timeouts and back-off sleeps: each call is answered, fails without an effect, or loses its answer after the effect.
- A failed conflict lookup (status other than 200, or a transport error) is an empty page, so both end in the conflict error here.
- JWT and JWKS validation, scopes, and the mapping of errors to HTTP statuses.
- SHA-1 and its truncation: the digest is a parameter, and absence of collisions is a stated assumption where it is used.
- Calendar arithmetic of the cover dates: they are strings that may differ between retries.
- SQLAlchemy, migrations, `wait_for_db`: a commit is one atomic step and a rollback keeps nothing.
- Ties on the clock outside the inbox: the tables stamp rows with strictly increasing times, so the tie-break by quote id never decides.
- Concurrent assess or quote against bind: the freeze is claimed for serial runs only; the interleaved runs make no use of it.
- The guard reads of a bind are one step, although the code issues several statements.
- A policy service driven by other clients, or one that lists policies it does not hold.
- NaN, infinities, negative zero and the exponent limits of Python's decimals; `tiv_eur` as an unbounded integer, with the 64-bit range where it matters.
- Blanks and underscores inside a stored decimal, which Python skips: such a text does not read here.
- Unicode case folding: letter case is that of ASCII.
- Postcode, broker reference, the counterparty row and the fallback to its id: the submission carries the holder's name.
- Pydantic validation, list and detail reads, the web front end.
- Lifecycle.SortedFlags: sorts the two flags the service derives, not arbitrary ones.
- RatingTrail.TrailReplays: for a charged tax rate that loses digits in the context, the percentage is not printed in full and nothing is claimed of the replay.
- Workbench.Workbench.BindSubmission: a process that dies inside the retry loop is left to the attempt machine, where every try is a step of its own.
