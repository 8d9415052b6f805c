# Verified model of the SEO crawler's cores

This project models, in Dafny, the parts of the crawler whose behaviour is decided by interplay
rather than by single lines, and proves what they keep. Each module follows one component; the
components do not depend on each other.

| modules | component |
|---|---|
| `CrawlFrontier`, `SiteCrawls`, `StaleDepths` | the full-site crawl: a depth-ordered worklist with a page maximum, a cap on query variants, pause and resume |
| `SitemapImport` | the sitemap worklist over possibly cyclic sitemap indexes |
| `DeploymentDrain`, `DrainLaws`, `DrainResults`, `DrainStranding`, `DrainDatabase` | crawl-job statuses and the deployment drain, as a protocol over all interleavings of committed steps |
| `SimilarPages`, `NearDuplicates`, `ConnectedGroups`, `DuplicateContent` | duplicate content: hash groups, the definition of similar pages and its search over an inverted shingle index, a depth-first grouping |
| `BinomialTail`, `StepUp`, `DeadEnds` | the exact binomial test and the step-up correction behind landing dead ends |
| `CanonicalSchema`, `JsonText` | the canonical form of structured data and the serialisation that orders it |
| `Probabilities`, `IntentClassification` | rounded intent probabilities with residual correction, and the intent chosen |
| `QualityIssues`, `AnalyticsQuality` | the two-clean-check lifecycle of analytics quality issues, over whole histories |
| `SensorMachine`, `SensorReports`, `Sensors` | the browser sensor: exposure timers, process events, `destroy` |
| `Sorting`, `Basics` | stable sorting and small shared definitions |

Code that changes state step by step is a class or a method with loops, proved against a
specification function or predicate; the theorems are about that specification. Verify with
`dafny verify dfyconfig.toml`. The solver is kept fast by hiding definitions a proof does not need.

## What the proofs found

Where the code does not meet what one would expect of it, the model keeps the code and the proofs say
exactly when it does, or give an input for which it does not.

- Starting a drain is two transactions. The second does not look at the active flag again, and it passes
  over jobs that are tracked already (`app/services/crawl_deployment.py:67-75`). `SweepSafeIff`: it makes the
  drain safe if and only if it finds the flag set and no tracked job running. The first fails when another
  operator's finish falls in between (`LateSweepReachable`), the second when a verification of a tracked job
  started between two sweeps of one drain (`SecondSweepSkips`).
- Jobs that a late sweep pauses are forgotten by the next drain (`LateSweepLosesJob`); by
  `AlwaysHeldTrackedIff` that is the only way a paused job gets lost.
- Recommendation verifications write `running` without asking the drain or looking at other crawls
  (`app/services/recommendation_verifications.py:193`). `DrainSafeIff`: from a sweep in an active drain until a
  finish succeeds no job ever runs if and only if no tracked job ran at the sweep and no existing job is
  verified after it; `VerificationRunsDuringDrain` reaches such a verification. `OnePerWebsiteIff`: no two
  crawls of a website ever run at once if and only if no verification starts beside one;
  `VerificationJoinsCrawl` reaches two.
- A job that waits for queue capacity is asked to pause although no worker can acknowledge it
  (`app/services/crawl_deployment.py:75`). `WaitingJobBlocksFinish`: it blocks every finish until a recovery
  that does not protect it, or its cancellation, verification or deletion; by `StrandedIff` exactly these
  steps end it, and `WaitingJobCaught` reaches such a job.
- Breadth-first depths are exact for a crawl seeded by the root, unless a page that was inactive when
  popped is reactivated and crawled later in the run. `url_registry.register_url` does reactivate pages
  (`app/services/url_registry.py:32`); `ReactivatedPageMisleads` is a six-page site where depth 4 is stored
  for a page three links away. `FreshExactIff` is the condition for any fresh crawl: no link between
  crawled pages drops more than one level.
- The near-duplicate index skips common shingles, so more than ten pages that all agree are not
  reported at all (`AllAlikeMissed`). `MissedIff` is the exact condition for any pair, and `GroupsExactIff` for
  the groups as a whole.
- The sensor keeps no record of `destroy`, but keeps its record of timers. A visibility entry delivered
  after it leads to an exposure if and only if its key is watched, was not reported and had no timer on
  record (`ExposableAfterDestroyIff`); a late below-half entry clears such a record first, and then any
  watched, unreported key can be reported (`ReportableAfterDestroyIff`). Nothing else reports one
  (`ExposureAfterDestroy`); `LateExposureExample` is an instance.
- Of two exposures located on the same element only the later one can ever be reported:
  `ReportableIffLastBound` is the exact condition for any manifest, `SharedElementExample` an instance.
- A run of analytics checks over verified issues alone logs nothing (`SilentIff`), and the status looks at
  the last twenty entries of both providers together, so a checked provider can still show insufficient
  data; `StatusByHistory` says exactly when, and `CheckedWithoutData` is a history that does.

## Model

| member | source | states |
|---|---|---|
| CrawlFrontier.RelaxedIsShortest | app/jobs.py:462-475 | depths that have a witness path and never drop by more than one along a link are exactly the breadth-first distances over the crawled pages |
| CrawlFrontier.ShortestIsRelaxed | app/jobs.py:521-525 | conversely exact distances never drop by more than one level along a link between crawled pages |
| CrawlFrontier.FirstVariantsCount | app/jobs.py:704-714 | of every variant group exactly the first min(count, cap) URLs are admitted |
| CrawlFrontier.FirstVariantsKeepsUngrouped | app/jobs.py:706-708 | a URL without a variant group is always admitted |
| CrawlFrontier.LimitQueryVariants | app/jobs.py:694-722 | the loop with its running counts keeps the order and exactly the URLs with fewer than cap, by default a hundred, earlier ones of their group |
| CrawlFrontier.StartCounts | app/jobs.py:440-446 | the counts a call starts with are the sizes of the groups among its seeds, within the cap |
| CrawlFrontier.SeedIffDue | app/jobs.py:426-446 | a known URL seeds the crawl exactly if it is an HTML page, not excluded, and fewer than a hundred such pages of its variant group are listed before it |
| CrawlFrontier.SortedQueue | app/jobs.py:465 | sorting puts known depths first in ascending order and unknown ones last, and keeps exactly the queued ids |
| SiteCrawls.HeadIsFirstInLine | app/jobs.py:465-466 | the page popped has the least known depth, or none is known, and was queued before its equals |
| CrawlFrontier.InitialInvariant | app/jobs.py:403-454 | a fresh call, or a resumed one over what an earlier call stored, starts in the invariant |
| CrawlFrontier.CrawlKeeps | app/jobs.py:466-478 | crawling the head keeps the whole invariant; the page was not crawled before and its depth has a witness path |
| SiteCrawls.LinkKeeps | app/jobs.py:505-531 | following one link keeps the whole invariant: queue ids distinct and mirrored, depths witnessed, group counts exact and capped, levels adjacent |
| SiteCrawls.PageFollowed | app/jobs.py:504-532 | after all its links are followed, every HTML target of the page is in the frontier or its group is full, and none is deeper than one level |
| SiteCrawls.PageSettles | app/jobs.py:504-532 | and whatever the seeds: every asset it links to was audited or its group is full, and every linked page of the frontier is stored at most one level below the depth the page was crawled with |
| SiteCrawls.StepProgress | app/jobs.py:456-532 | each iteration keeps the invariant and lowers (maximum minus visited, queue length), though skipped pages can be queued again |
| SiteCrawls.SiteCrawl.Step | app/jobs.py:465-532 | the imperative iteration does exactly that step on all fields |
| SiteCrawls.SiteCrawl.Crawl | app/jobs.py:397-538 | over any pauses and resumes, also over depths of other runs: the call stops at the first check that sees a pause or cancel request and nowhere else is interrupted; the run log has each page once, depths only shrink and stay witnessed, the maximum is respected; complete means every due known page and every linked HTML page was crawled, inactive when popped, or capped out, and every linked asset audited or capped out |
| CrawlFrontier.StoredByAnother | app/jobs.py:403-425 | a run can be resumed over depths that another run of the website stored meanwhile, also when it had not crawled anything yet |
| SiteCrawls.EmptyQueueComplete | app/jobs.py:533-534 | an empty queue means that everything known or found has been dealt with |
| SiteCrawls.FreshRootCrawl | app/jobs.py:456-531 | at any point of a fresh crawl seeded by the root alone every crawled page has its shortest depth and the queue spans two adjacent levels, if no page skipped as inactive was crawled later |
| SiteCrawls.FreshExactIff | app/jobs.py:403-531 | at any point of a fresh crawl, with any seeds and any changes of activity, the depths are exact if and only if every crawled page has one and no link between crawled pages drops more than one level |
| SiteCrawls.WithoutReactivation | app/jobs.py:470-472 | so depths are exact and levels adjacent whenever no page is reactivated; pages may be deactivated at any time |
| SiteCrawls.CrawledLaterIsReactivated | app/jobs.py:470-472 | a page that was skipped as inactive and crawled later was reactivated in between |
| StaleDepths.ReactivatedPageMisleads | app/jobs.py:470-475 | the proviso cannot be dropped: a concrete run whose final depth of a page is not the shortest |
| SitemapImport.CompleteIff | app/jobs.py:275-345 | queued is the disjoint union of visited and pending; nothing pending means exactly that the roots and every fetchable child of every parsed document were fetched, that is, everything reachable |
| SitemapImport.QueueChildren | app/jobs.py:328-340 | queues the valid in-scope children that were never queued, once each, and keeps the worklist invariant |
| SitemapImport.ImportSitemaps | app/jobs.py:275-394 | terminates on cyclic indexes within a thousand documents and fetches none twice; a complete import fetched every eligible configured or robots.txt sitemap, the fallback if there is none, and every eligible child, and nothing that no path of children leads to; it fails exactly on an unreadable document other than that fallback; what is named earlier is fetched earlier, listed sitemaps in the order of the lists; counts are truthful |
| SitemapImport.NextInTurn | app/jobs.py:299-340 | appending the new children of the document at hand keeps first come, first served: whatever the first documents named comes before all they did not name |
| DeploymentDrain.StepKeeps | app/jobs.py:87-118 | every protocol step but an ungated verification keeps: one running crawl per website, no tracked job running, none running once swept |
| DrainResults.OnePerWebsiteIff | app/jobs.py:95-106 | over every interleaving of any number of workers, schedulers, operators and users, no two crawls of a website run at once if and only if no verification starts beside one |
| DrainResults.OnePerWebsiteStepIff | app/jobs.py:95-106 | of all steps only a verification beside another running crawl of its website breaks it |
| DrainResults.VerificationJoinsCrawl | app/services/recommendation_verifications.py:179-202 | that is reachable: two jobs of one website run at once |
| DrainResults.DrainSafeIff | app/services/crawl_deployment.py:67-78 | from a sweep in an active drain until a finish succeeds, over every interleaving, no job ever runs if and only if no tracked job was running at the sweep and no existing job is verified after it |
| DrainResults.VerificationRunsDuringDrain | app/services/recommendation_verifications.py:179-202 | such a verification can start in a reachable swept drain, and makes its job run |
| DrainResults.SweepSafeIff | app/services/crawl_deployment.py:67-78 | in any state, a sweep makes the drain safe over all later runs without such a verification if and only if it finds the control row active and no tracked job running |
| DrainResults.SecondSweepSkips | app/services/crawl_deployment.py:71-73 | a reachable second sweep passes over a tracked job that a verification runs |
| DrainResults.LateSweepReachable | app/services/crawl_deployment.py:61-67 | the unsafe case is reachable from the start |
| DrainResults.HeldStaysTrackedIff | app/services/crawl_deployment.py:61-65 | a step loses track of a paused job exactly when it starts a drain over jobs a late sweep left behind |
| DrainResults.AlwaysHeldTrackedIff | app/services/crawl_deployment.py:49-78 | over any run, paused jobs stay tracked until released if and only if no drain starts over leftovers of a late sweep |
| DrainResults.DrainConserves | app/services/crawl_deployment.py:49-78 | over any run whose sweeps are prompt, every job a drain step paused stays tracked until a finish releases it |
| DrainResults.LateSweepLosesJob | app/services/crawl_deployment.py:59-79 | after a late sweep the next drain leaves a job paused and untracked |
| DrainResults.DrainReleases | app/services/crawl_deployment.py:110-134 | over any run whose sweeps are prompt, a finish that succeeds makes exactly the tracked, still paused jobs pending, touches no other job and leaves no held job paused |
| DrainStranding.StrandedIff | app/services/crawl_deployment.py:75 | a pause request that no process can acknowledge is ended by exactly a recovery that does not protect the job, its cancellation or verification, or the deletion of its website |
| DrainStranding.WaitingJobBlocksFinish | app/services/crawl_deployment.py:67-122 | a job that a sweep catches waiting for capacity stays stranded exactly as long as no such step comes, and for that long every finish is refused |
| DrainStranding.WaitingJobCaught | app/scheduler.py:98-100 | such a job is there in a reachable drain |
| DrainDatabase.Database.PauseJobIfActive | app/services/crawl_deployment.py:45-56 | pauses and tracks the job exactly when the drain is active |
| DrainDatabase.Database.Sweep | app/services/crawl_deployment.py:67-78 | untracked pending jobs become paused, untracked running or waiting ones pause-requested, all of them tracked; every other job is unchanged |
| DrainDatabase.Database.Status | app/services/crawl_deployment.py:82-91 | lists the running or pause-requested jobs of an active drain; safe exactly when active without such a job, that is, when a finish would succeed now |
| DrainDatabase.Database.Finish | app/services/crawl_deployment.py:110-134 | refused exactly when active with a running or pause-requested job, then naming those and changing nothing; else tracked paused jobs become pending with their next attempt number and the drain is over |
| DrainDatabase.Database.RecoverInterrupted | app/worker.py:56-82 | parks exactly the running or pause-requested jobs, and cancels the cancel-requested ones, that no live worker owns |
| DrainDatabase.Database.DispatchWaiting | app/scheduler.py:111-139 | outside a drain the first unlocked waiting jobs by priority and age, up to the limit, are offered; exactly those the queue accepts become pending, and they are counted |
| DrainDatabase.Database.ClaimOrPause | app/jobs.py:92-118 | under the lock a job is claimed exactly when no drain is active and its website has no running crawl |
| DrainLaws.SweepLaw | app/services/crawl_deployment.py:67-78 | the sweep step, status by status and for every job |
| DrainLaws.SweptIsUnsafe | app/services/crawl_deployment.py:67-91 | a sweep that finds an untracked running or waiting job leaves a drain that is not safe to finish |
| DrainLaws.FinishLaw | app/services/crawl_deployment.py:110-134 | the finish step, for every job: refused without change, or tracked paused jobs pending and no other touched |
| DrainLaws.RecoverLaw | app/worker.py:56-82 | the recovery step, status by status and for every job |
| DrainLaws.DispatchLaw | app/scheduler.py:111-139 | the dispatch step, for every job: chosen waiting jobs become pending and no other changes |
| DrainLaws.GateLaw | app/jobs.py:92-118 | what the gate writes, for every job: the job paused and tracked, or running under its next attempt, and no other changed |
| DrainLaws.RecoveryUnblocks | app/worker.py:56-82 | a recovery that protects nobody leaves nothing that keeps a drain from finishing |
| DrainLaws.CheckAnswers | app/jobs.py:634-650 | a worker answers a pause or cancel request at its next check and goes on otherwise |
| DrainLaws.ConcludeLaw | app/jobs.py:123-226 | a worker's final write is one of three statuses and ends its work, whatever was asked of the job meanwhile |
| DrainLaws.UserPauses | app/api/routes/discovery.py:425-437 | a user's pause is a request to a running job and changes no other |
| DrainLaws.UserCancels | app/api/routes/discovery.py:508-535 | a user's cancel stops a job that no worker runs at once and is a request to one that runs |
| DrainLaws.UserResumes | app/api/routes/discovery.py:440-505 | a user's resume or retry makes exactly paused, failed and cancelled jobs pending and offers them |
| DrainLaws.RequeueLaw | app/services/dead_letters.py:52-77 | a requeue from the dead letters makes the job pending unless it is active, and changes no other |
| DrainLaws.DrainRoundTrip | app/services/crawl_deployment.py:67-134 | a running job goes through a drain unchanged but for its status: asked to pause, with every finish refused, paused by its worker, pending again |
| ConnectedGroups.BuildAdjacency | app/services/content_similarity.py:252-255 | the adjacency lists hold each page's neighbours and scores in edge order |
| ConnectedGroups.FindComponent | app/services/content_similarity.py:261-272 | one search finds unvisited pages connected to its start, closed under the edges, and lists their edges' scores |
| ConnectedGroups.ComponentFound | app/services/content_similarity.py:258-273 | what one search finds is a connected component with every score twice |
| ConnectedGroups.CountedTwice | app/services/content_similarity.py:268-269 | over members closed under the edges each edge's score is noted exactly twice |
| ConnectedGroups.GroupPairs | app/services/content_similarity.py:249-274 | the groups are the connected components: disjoint, covering exactly the endpoints, sorted, with every score twice |
| ConnectedGroups.TogetherIffConnected | app/services/content_similarity.py:258-273 | two pages share a group if and only if a chain of edges joins them |
| ConnectedGroups.GroupsDisjoint | app/services/content_similarity.py:257-260 | no page is in two groups |
| NearDuplicates.PostingHolds | app/services/content_similarity.py:189-202 | a posting lists exactly the documents that hold the shingle, ascending |
| NearDuplicates.BuildIndex | app/services/content_similarity.py:189-202 | the loop builds every compared document's shingle set and the postings of every shingle |
| NearDuplicates.CombinationsOnce | app/services/content_similarity.py:209-210 | every pair of a posting is counted once, in ascending order |
| NearDuplicates.CountOverlaps | app/services/content_similarity.py:204-210 | for every pair the counter holds the number of shared shingles that are not too common |
| NearDuplicates.SelectEdges | app/services/content_similarity.py:212-220 | an edge for exactly the pairs whose sizes and counted overlap suffice, each once |
| NearDuplicates.EdgeIs | app/services/content_similarity.py:185-222 | the index finds exactly the pairs of the definition: four thirds at most between their sizes, 85% of the smaller shared in runs of five tokens that are not too common, and that share as the score |
| NearDuplicates.TrulySimilarIs | app/services/content_similarity.py:211-220 | and what the results below call similar means just that, common runs included |
| NearDuplicates.ReportedIsSimilar | app/services/content_similarity.py:213-220 | every reported pair has size ratio at least 0.75 and true containment at least 0.85, never overstated by its score |
| NearDuplicates.RarePairReportedIff | app/services/content_similarity.py:205-220 | a pair that shares no common shingle is reported exactly if it is truly similar, with its true containment |
| NearDuplicates.MissedIff | app/services/content_similarity.py:205-220 | a similar pair is missed exactly if its shared shingles that are not common are too few |
| NearDuplicates.FewDocumentsExact | app/services/content_similarity.py:205 | with at most ten documents the reported pairs are exactly the truly similar ones |
| NearDuplicates.FewDocumentsTogetherIff | app/services/content_similarity.py:185-222 | with at most ten documents two pages share a group if and only if a chain of truly similar pairs joins them |
| NearDuplicates.RareTogetherIff | app/services/content_similarity.py:185-222 | the same on any site where no similar pair shares a shingle that is too common |
| NearDuplicates.GroupsExactIff | app/services/content_similarity.py:185-222 | on any site the groups are exactly the chains of truly similar pairs if and only if no similar pair ended up apart |
| NearDuplicates.AllAlikeMissed | app/services/content_similarity.py:205-208 | of more than ten documents that are all alike no pair is reported |
| NearDuplicates.NearDuplicateGroups | app/services/content_similarity.py:185-222 | the whole detection: the components of exactly those edges; the edges are exactly the pairs of compared pages that are similar by their five-token runs held by at most ten pages or a tenth of all |
| NearDuplicates.TogetherResembles | app/services/content_similarity.py:185-222 | on any site pages that share a group are joined by a chain of truly similar pairs |
| NearDuplicates.GroupedHasPartner | app/services/content_similarity.py:185-222 | a grouped page was compared and not excluded, and its group holds another page that truly overlaps it |
| NearDuplicates.GroupScoresHigh | app/services/content_similarity.py:218-220 | every score a group reports is at least 0.85 |
| DuplicateContent.ExactDuplicateGroups | app/services/content_similarity.py:118-124 | returns, each once, exactly the ascending lists of two or more comparable pages that are all the comparable pages with one nonempty content hash |
| DuplicateContent.ShareExactGroupIff | app/services/content_similarity.py:118-124 | two pages share an exact group if and only if both are comparable and have the same nonempty hash |
| DuplicateContent.DetectDuplicates | app/services/content_similarity.py:43-46 | exact groups first, near groups among exactly the remaining pages |
| DuplicateContent.NeverBoth | app/services/content_similarity.py:44-46 | no page is reported both as an exact and as a near duplicate |
| BinomialTail.TailIsAtMost | app/services/analytics_journey.py:27-33 | the sum of terms is the probability of at most that many successes in independent trials |
| BinomialTail.TermsSumToOne | app/services/analytics_journey.py:27-33 | all terms together make one, for any probability |
| BinomialTail.TailIsProbability | app/services/analytics_journey.py:27-33 | the tail lies between zero and one |
| BinomialTail.TailMonotone | app/services/analytics_journey.py:27-33 | the tail is nondecreasing in the successes |
| BinomialTail.TailAntitone | app/services/analytics_journey.py:27-33 | the tail is nonincreasing in the probability |
| StepUp.CountAccepted | app/services/analytics_journey.py:93-98 | of m ascending p-values the last k accepted satisfies p times m at most 0.10 k, and no later one does so for its rank; the accepted are exactly the values under that line |
| StepUp.DiscoveriesIgnoreOrder | app/services/analytics_journey.py:93-99 | the number accepted depends on the p-values only, not on how ties are ordered |
| StepUp.DiscoveriesLowered | app/services/analytics_journey.py:93-99 | lowering p-values never shrinks the number accepted |
| StepUp.DiscoveriesUnderLine | app/services/analytics_journey.py:97-99 | as many values lie under the line of the accepted rank as are accepted, so no tie is split |
| DeadEnds.EvidenceIsProbability | app/services/analytics_journey.py:70-75 | every tested page's p-value, and so its confidence, lies between zero and one |
| DeadEnds.HigherBenchmarkStrengthens | app/services/analytics_journey.py:70-75 | against a higher peer benchmark a suspect page stays suspect, with evidence at least as strong |
| DeadEnds.MoreBouncesStrengthen | app/services/analytics_journey.py:46-75 | with more bounces on the same entries a suspect page stays suspect too, with evidence at least as strong |
| DeadEnds.DetectDeadEnds | app/services/analytics_journey.py:36-107 | of the ranking of all pages that lag behind their peers, strongest evidence first and equals in page order, reports exactly the part up to the last rank k whose p-value times the number tested is at most 0.10 k |
| DeadEnds.TestedLags | app/services/analytics_journey.py:44-75 | tested are exactly the pages with 25 entries, no conversion and a role other than navigation or uncertain, whose rate is at least a tenth below that of 5 peers with 200 entries, counted over all other pages of the role; the evidence is the binomial tail at that lower rate |
| DeadEnds.ReportedIsConfident | app/services/analytics_journey.py:97-101 | whatever is reported has a p-value of at most 0.10 |
| CanonicalSchema.CanonicalIdempotent | app/services/change_detection.py:136-153 | canonical values are left alone |
| CanonicalSchema.SchemaIdempotent | app/services/change_detection.py:128-133 | so is a canonical schema list |
| CanonicalSchema.CanonicalEqualIff | app/services/change_detection.py:136-153 | canonical forms are equal if and only if the values agree up to reordering lists directly under "@graph" or "@type", at any nesting |
| CanonicalSchema.CanonicalSame | app/services/change_detection.py:136-153 | the canonical form loses nothing: it is the value it was made from, up to the free orders |
| CanonicalSchema.SchemaEqualIff | app/services/change_detection.py:128-133 | the same for whole lists, whose own order is free |
| CanonicalSchema.SchemaSame | app/services/change_detection.py:128-133 | the canonical list is sorted and differs from the list it was made from in free orders only, so nothing is lost |
| JsonText.DumpsInjective | app/services/change_detection.py:130-133 | json.dumps with sorted keys gives different values different texts |
| JsonText.ValueUnique | app/services/change_detection.py:148-151 | a text, followed by a separator or the end, determines the value and the rest |
| JsonText.StructuredDataChangedIff | app/services/change_detection.py:65-75 | a change of structured data is reported exactly when the lists differ beyond free orders, missing data counting as an empty list; it is one change, holding the old and the new data up to those orders, sorted; without a previous snapshot the page is new |
| Probabilities.CorrectedSum | app/services/content_analysis.py:91-94 | the corrected shares make exactly one whole |
| Probabilities.CorrectedInRange | app/services/content_analysis.py:91-94 | each of them lies between zero and one whole |
| Probabilities.ShareError | app/services/content_analysis.py:91-94 | a share is off by at most half a millionth, the winner's by half a millionth more for each label |
| IntentClassification.AlwaysADistribution | app/services/content_classification.py:27-35 | whatever is scored, validation passes and the result is a distribution |
| IntentClassification.IntentScoredMost | app/services/content_analysis.py:93-96 | an intent other than mixed has strictly the largest raw score |
| IntentClassification.ClearLeadReported | app/services/content_analysis.py:95-96 | conversely a topic whose exact share leads by 0.15 and a rounding allowance is reported |
| IntentClassification.ClassifyReflects | app/services/content_analysis.py:84-107 | whatever is scored, labels, shares, intent, context and confidence reflect the scores in that sense |
| IntentClassification.ClassifyQuery | app/services/content_analysis.py:110-125 | the labels of a query's result are exactly the topics with a positive weight (matched terms, and 1.5 for a brand on navigational), each once, or uncertain alone; shares make one whole and are the weights' shares to the nearest millionth, all but the largest, which is within (n + 1)/2 of them; the intent is the label that leads by 0.15, else mixed; the confidence is its share to the nearest thousandth, else 0.4; a clear intent has strictly the most points |
| IntentClassification.ClassifyPage | app/services/content_analysis.py:128-150 | the same for a page's weights: its queries' ones, 2 for each prominent term and 0.5 for each other term of the body |
| QualityIssues.StatusFollowsStreak | app/services/analytics_quality.py:212-254 | without manual edits an issue's status and all its timestamps are a function of when anomalies and the clean checks since the last one were seen; new, resolved or verified after no, one or more clean checks |
| QualityIssues.AcceptedRiskStays | app/services/analytics_quality.py:235-244 | through any runs an accepted risk keeps everything but the time it was last detected |
| QualityIssues.IgnoredUntilAnomaly | app/services/analytics_quality.py:237-244 | an ignored issue is left alone until an anomaly, which starts it anew |
| QualityIssues.OtherUntilClean | app/services/analytics_quality.py:235-254 | any other status that people set stays until the first clean check, after which the status follows the clean streak as for every issue |
| QualityIssues.OutcomeMeans | app/services/analytics_quality.py:210-255 | what is counted and logged is what happened: created means there was no issue, resolved and verified that the status became so, untouched that nothing changed |
| QualityIssues.TracksNext | app/services/analytics_quality.py:209-255 | run after run the issue table holds what the histories say |
| AnalyticsQuality.Monitor.CheckGa4Url | app/services/analytics_quality.py:210-255 | one page's GA4 check moves that page's issue by one transition, moves no other issue, and logs the outcome |
| AnalyticsQuality.Monitor.CheckMatomoUrl | app/services/analytics_quality.py:407-449 | the Matomo loop, written separately, makes the same transition with the same log entries |
| AnalyticsQuality.Monitor.ReconcileGa4 | app/services/analytics_quality.py:185-263 | moves each visited or anomalous page once and keeps one issue per page, or does nothing when GA4 is not the configured source; the counters are the numbers of transitions and anomalies; the log gets one entry for each resolved, verified or anomalous page, or a single clean one |
| AnalyticsQuality.Monitor.ReconcileMatomo | app/services/analytics_quality.py:386-457 | the same for the pages of a Matomo period; the number of anomalies is the sum over the pages |
| AnalyticsQuality.ConsistentNext | app/services/analytics_quality.py:185-457 | every run of either provider keeps both tables and the shared log in step with the history of runs |
| AnalyticsQuality.SilentIff | app/services/analytics_quality.py:244-257 | a run logs nothing exactly if it finds no anomaly, some checked page is affected, and all affected ones are verified |
| AnalyticsQuality.StatusByHistory | app/services/analytics_quality.py:304-327 | the status shown is a function of the runs: insufficient exactly if none of the last twenty entries they make is the provider's, else decided by the clean streaks of the affected pages, or by two clean entries if there are none |
| AnalyticsQuality.StatusMeans | app/services/analytics_quality.py:304-327 | for any tables and logs, also edited by hand: insufficient exactly without an entry of the provider among the last twenty, attention exactly with one and some issue neither resolved nor verified |
| AnalyticsQuality.CheckedWithoutData | app/services/analytics_quality.py:304-318 | a history whose GA4 check is hidden by twenty Matomo entries: insufficient data although checked |
| AnalyticsQuality.Monitor.ShowStatus | app/services/analytics_quality.py:266-335 | so the status of a monitor is a function of its history |
| SensorMachine.ReportedAtMostOnce | sensor/bootstrap.js:150-212 | over any run each key has at most one exposure, one start and one accepted success, and a success only for a process key |
| SensorReports.QueueFollowsSteps | sensor/bootstrap.js:121-212 | over any run the reports of a key are counted by the steps alone: one interaction for every click, one start if it was submitted, one success if a process proved one with allowed evidence, one exposure if its timer fired |
| SensorReports.StepNames | sensor/bootstrap.js:121-212 | each step reports nothing else |
| SensorMachine.ExposureJustified | sensor/bootstrap.js:164-183 | an exposure is reported only after an at-half entry at least a second earlier, with no below-half entry and no destroy in between |
| SensorMachine.ShownIsDue | sensor/bootstrap.js:164-183 | conversely what came half into view and stayed so is reported or has a live timer due within the second |
| SensorMachine.ExposureAfterDestroy | sensor/bootstrap.js:213-219 | an exposure after destroy needs an at-half entry delivered after it |
| SensorMachine.ExposableAfterDestroyIff | sensor/bootstrap.js:159-219 | after destroy some run without a below-half entry for a key reports it if and only if the key is watched, unreported, and had no timer on record |
| SensorMachine.ReportableAfterDestroyIff | sensor/bootstrap.js:159-219 | over all runs after destroy a key can be reported if and only if it is watched and unreported |
| SensorMachine.NoStartAfterDestroy | sensor/bootstrap.js:213-219 | no process starts after destroy |
| Sensors.Sensor.ApplyManifest | sensor/bootstrap.js:121-191 | accepts exactly one to twenty observations with distinct keys; a refused manifest changes nothing, a valid one binds exactly the observations whose locator finds one element, the last exposure winning an element |
| Sensors.Sensor.OnEntries | sensor/bootstrap.js:160-185 | the observer's callback handles its entries one by one as the machine does |
| Sensors.Sensor.OnTimer | sensor/bootstrap.js:168-177 | a firing timer exposes its key, once, and clears its record |
| Sensors.Sensor.OnSubmit | sensor/bootstrap.js:150-154 | the first submit of a process reports its start, and later ones nothing |
| Sensors.Sensor.ProcessSuccess | sensor/bootstrap.js:197-212 | accepts exactly a process key not yet successful with allowed evidence; a refused call changes nothing |
| Sensors.Sensor.Destroy | sensor/bootstrap.js:213-219 | clears the recorded timers and the listeners, and nothing else |
| Sensors.ReportedFromManifest | sensor/bootstrap.js:121-212 | over any run from an applied manifest only an exposure that is the last one bound to its element is reported, only a found process starts or succeeds, and each at most once |
| Sensors.ReportableIffLastBound | sensor/bootstrap.js:121-188 | from an applied manifest some run reports an exposure if and only if it is the last one bound to its element |
| Sensors.ProcessReportableIff | sensor/bootstrap.js:147-212 | some run starts a process, or reports its success, if and only if its element was found |
| Sensors.SharedElementExample | sensor/bootstrap.js:130-131 | a valid manifest of two exposures on one element: the second can be reported, the first never |
| Sensors.LateExposureExample | sensor/bootstrap.js:213-219 | its second exposure can be reported after destroy |
| Sensors.ShadowedNeverExposed | sensor/bootstrap.js:130-131 | of two exposures on one element the earlier key is never reported in such a run |

## Left out

- Database, queue, HTTP, browser and clock: abstract functions, parameters or atomic steps. Every block of code between two commits is one step; a locked read of the control row returns its committed value.
- The scheduler's and the API's own look at the drain flag is not locked, so their steps may also happen during a drain; the model allows them always.
- User steps other than pause, cancel, resume, onboarding retry and deletion of a website, and retries by the queue: they do not write `running`. Deleting a client is deleting its websites one after another.
- A worker that dies: one that takes no further step.
- A dead-letter requeue that the queue refuses: its status write is never committed, so the model makes it no change.
- Which jobs belong to a recommendation verification: any existing job may be verified at any time.
- Drain liveness: nothing says that a drain becomes safe, and a job asked to cancel may still be executing when it is.
- A site's links, page kinds and exclusions are fixed during a run; activity may change at every check. A crash in the middle of a page's links is not modelled.
- Variant counts after a resume: rebuilt from the limited list, they are not claimed to be exact.
- Run counters, robots rules, redirects, and the analysis after a complete crawl.
- Page registration from sitemap entries and the quality report of a sitemap import.
- CrawlFrontier.LimitQueryVariants: the count of skipped URLs that is logged is left out.
- SiteCrawls.FreshRootCrawl: its proviso is sufficient and not necessary, because a page crawled late may by chance disturb no other page's depth.
- Duplicate titles and descriptions: the same grouping by a key as for hashes.
- Which pages can be compared, and the tokenising of their text: parameters of a row.
- Floating-point rounding in ratios, p-values and shares: reals, and whole millionths after rounding. The displayed rounding of dead-end rates and confidence is left out.
- Negative visit or bounce counts.
- JSON numbers are the same if they are written the same; Python's equality of 1, 1.0 and true is left out.
- The other fields of a snapshot comparison and the pagination filter: each compares one field.
- Which terms occur in a text, Unicode normalisation and brand matching: a set of tokens and a flag.
- IntentClassification.ClassifyPage: its weights never hold the label mixed, because they come from the probabilities of earlier query results, which never do.
- How the analytics provider is selected and configured, how anomalies are found, and the two clock readings at an issue's creation, which the model makes one.
- The order in which checked pages are visited, shingles are indexed and pairs are listed: any order.
- The sensor's token syntax, manifest version, page and expiry checks, and what an event's payload looks like.
- Redirect chains, 28-day chunks and keyset batches: their properties follow from one loop each.
