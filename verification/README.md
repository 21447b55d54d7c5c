# Guild OS: governance core, modelled and proved in Dafny

Guild OS keeps a Guild's shared work, memory, decisions and authority. This project models the parts of it in which
several operations must agree with one another, and proves what they keep over every input or every run:

| file | component |
|---|---|
| `DependencyGraph.dfy`, `Activities.dfy`, `ActivityStore.dfy`, `ActivityRuns.dfy`, `ActivityLaws.dfy` | Activities, their dependency graph with the worklist search, outcomes, and whole runs of calls |
| `BlueprintSpaces.dfy` | the Space list of a blueprint: the validator's nested parent walk and the backward sweep that creates the Spaces |
| `BlueprintJson.dfy`, `Blueprints.dfy`, `BlueprintForms.dfy`, `BlueprintGrammar.dfy`, `BlueprintParser.dfy`, `BlueprintReadings.dfy` | the normalising blueprint parser with its upgrade from schema 1 to schema 2, the form of what it returns, and what it returns for any input |
| `BlueprintSamples.dfy` | concrete blueprints that are accepted, and where accepting them leads |
| `AuthorityMigration.dfy`, `MigrationLaws.dfy` | the role difference proposed when a blueprint meets an existing Guild |
| `Permissions.dfy`, `PermissionLaws.dfy`, `PermissionRefusals.dfy` | authorization of humans and agents over one snapshot, and the errors of refusing it |
| `Decisions.dfy`, `DecisionLaws.dfy`, `Knowledge.dfy`, `KnowledgeLaws.dfy`, `Intents.dfy` | the three in-memory stores with review, versions and step-by-step execution |
| `AgentWorkflow.dfy` | the durable workflow of one agent run against a changing world |
| `BoundedJson.dfy`, `BoundedPaths.dfy` | the size bound on action payloads, with its shared counter |
| `Governance.dfy` | root ownership and membership guards as one state machine |
| `Chains.dfy`, `Lookups.dfy`, `Text.dfy`, `Options.dfy` | following successor maps, first matches, trimming, optional values |

Conventions. Code that updates fields is a class whose methods are proved equal to a `Step` function; the invariants
and the properties of runs are lemmas about `Step`. Loops of the source are loops here. A thrown error is `None` or a
refusal that leaves the state unchanged. Fresh UUIDs and the current time are arguments. A run is a sequence of states
together with the calls between them, accepted or refused, of any length. The modules named Laws, with
`BlueprintReadings`, `BoundedPaths` and `PermissionRefusals`, say once more what each operation asks for and leaves, in
terms of the records themselves and without the functions that model the code, and prove that the two agree.

## What the proofs found

Each of these is a statement the source's guards suggest and the code does not meet on all inputs. A lemma names an
input at which it fails, and another proves exactly when it holds.

- **The sweep of an accepted blueprint may throw.** `initializeGuild` reads the blueprint as it was sent, while the
  validator looks at trimmed keys (`PaddedBlueprintIsAcceptedThenThrows`). The sweep succeeds if and only if every
  parent key is written, character for character, as some Space's key (`AcceptedSpacesAreMaterialised`); with trimmed
  keys it always does (`TrimmedSpacesAreMaterialised`).
- **The authority proposal may miss the proposed roles.** The parser accepts two roles of one name with different
  bundles; then some order of the impacts ends elsewhere (`AcceptedNamesakesConflict`). Every order ends at the proposed
  roles if and only if the namesakes are consistent (`ProposalIsPatchIff`); distinct names always are.
- **A further role binding may take an authorization away.** A walk up an endless chain of Spaces throws
  (`BindingTakesAuthorizationAway`). The binding leaves the authorization standing if and only if it is well formed and
  its walk ends (`AddingBindingKeepsAuthorizationIff`); on forest snapshots it always does.
- **A completed blocker may keep an Activity from being reopened.** `changeActivityStatus` looks for blockers among
  direct Activities only, `completeActivity` among all (`CompletedButNotReopened`). The two agree that an Activity is
  unblocked if and only if none of its blockers is structured work (`StructuredBlockersNeverClear`).
- **A canonical Knowledge item may be without its canonical version.** Approving a missing version number and archiving
  the canonical version both lead there (`ApprovingMissingVersion`, `ArchivingCanonicalVersion`). Over whole runs it
  never happens if and only if approvals name an existing version and archiving spares the canonical one
  (`PublishedAfterIff`, `RunStaysPublishedIff`).
- **One Decision method cannot be chosen in a blueprint.** A method's name may have 20 characters there, and one of the
  constants is longer (`LongMethodIsRefused`). Every other one can be chosen (`DecisionMethodAgain`).

One guarantee rests on the environment. A run at risk 2 or higher is executed only after an observed approval in every
world that never resets an approval (`RunGuildAgentWorkflow`, `ExecutionIsApproved`). The transition table alone does
not give this: a world that keeps to it may start an approved run and lose the approval record
(`ForgottenApprovalIsExecuted`).

## Model

| member | source | states |
|---|---|---|
| `DependencyGraph.DependsOn` | packages/guild-gatekeeper/app/dev-api.ts:3814-3823 | The worklist search terminates on every graph and reports the Activity exactly when the predecessor reaches it over blocks/follows edges |
| `DependencyGraph.NewEdgeClosesCycleIff` | packages/guild-gatekeeper/app/dev-api.ts:3811-3824 | Adding an edge to an acyclic graph makes a cycle exactly when its end already reaches its start |
| `DependencyGraph.ClosesCycle` | packages/guild-gatekeeper/app/dev-api.ts:3811-3824 | The search refuses a new edge exactly when the graph with it would be cyclic |
| `DependencyGraph.FewerEdgesStayAcyclic` | packages/guild-gatekeeper/app/dev-api.ts:3861-3894 | Removing edges, or adding relates_to entries, keeps the graph acyclic |
| `ActivityStores.ActivityStore.constructor` | packages/guild-gatekeeper/app/dev-api.ts:681-755 | The seeded store meets the invariant, its progress is justified, and it holds one blocks edge between its two Activities |
| `ActivityStores.ActivityStore.CreateActivity` | packages/guild-gatekeeper/app/dev-api.ts:3721-3766 | Refines the create step, including every refusal |
| `ActivityStores.ActivityStore.ChangeActivityStatus` | packages/guild-gatekeeper/app/dev-api.ts:3767-3791 | Refines the status step: transition table, no direct completion, blockers among direct Activities, version up by one |
| `ActivityStores.ActivityStore.AddActivityDependency` | packages/guild-gatekeeper/app/dev-api.ts:3792-3860 | Refines the add-edge step, whose acceptance condition is acyclicity of the resulting graph, by running the search |
| `ActivityStores.ActivityStore.RemoveActivityDependency` | packages/guild-gatekeeper/app/dev-api.ts:3861-3894 | Refines the remove-edge step with its two version checks |
| `ActivityStores.ActivityStore.CompleteActivity` | packages/guild-gatekeeper/app/dev-api.ts:3895-3945 | Refines the completion step: blockers from both lists, outcome numbered after the previous one |
| `ActivityStores.ActivityStore.AssignActivity` | packages/guild-gatekeeper/app/dev-api.ts:3946-3961 | Refines the assignment step |
| `Activities.StepKeepsValid` | packages/guild-gatekeeper/app/dev-api.ts:3721-3961 | Every call keeps ids unique, edges resolved, the graph acyclic and outcomes no newer than their Activity |
| `ActivityRuns.ReachableStatesAreValid` | packages/guild-gatekeeper/app/dev-api.ts:3721-3961 | In every reachable state the dependency graph is acyclic |
| `ActivityRuns.EdgeRefusedIffPredecessorDepends` | packages/guild-gatekeeper/app/dev-api.ts:3792-3824 | A blocks or follows edge that passes the other guards is accepted exactly when the predecessor does not already depend on the Activity |
| `ActivityRuns.ProgressIsJustified` | packages/guild-gatekeeper/app/dev-api.ts:3767-3945 | In every reachable state a ready, active or completed Activity is blocked only by Activities completed at some point of the run |
| `ActivityRuns.StructuredBlockersNeverClear` | packages/guild-gatekeeper/app/dev-api.ts:3777-3782 | The blocker lookup of a status change passes exactly when that of completion does and every blocker is a direct Activity |
| `ActivityRuns.CompletedButNotReopened` | packages/guild-gatekeeper/app/dev-api.ts:3767-3791 | An Activity blocked by completed structured work is completed, again and again, but never set to active |
| `ActivityRuns.VersionCountsSuccesses` | packages/guild-gatekeeper/app/dev-api.ts:3767-3961 | An Activity's version is its initial version plus the number of successful calls on it |
| `ActivityRuns.SuccessAdvances` | packages/guild-gatekeeper/app/dev-api.ts:3767-3961 | A successful call was given the current version and leaves its successor |
| `ActivityRuns.NoLostUpdate` | packages/guild-gatekeeper/app/dev-api.ts:3767-3961 | Two successful calls on one Activity never carry the same expected version |
| `ActivityRuns.OutcomesIncrease` | packages/guild-gatekeeper/app/dev-api.ts:3917-3932 | Successive outcomes of an Activity have strictly larger version and activityVersion |
| `ActivityLaws.CreateMeans` | packages/guild-gatekeeper/app/dev-api.ts:3721-3766 | A new Activity is accepted exactly on filled texts, a willing assignee and a parent of the same Space; it is put in front in version 1 and nothing else changes |
| `ActivityLaws.ElsewhereMeans` | packages/guild-gatekeeper/app/dev-api.ts:1238-1354 | Calls on other parts change what Activities depend on and leave Activities, edges and outcomes alone |
| `ActivityLaws.TableBothWays` | packages/guild-domain/src/constants.ts:325-338 | The transition table of Activities, told from where each status comes |
| `ActivityLaws.ChangeStatusAccepted` | packages/guild-gatekeeper/app/dev-api.ts:3767-3783 | A status change is accepted exactly on the current version, an allowed transition other than completion, and completed blockers if work is to start |
| `ActivityLaws.ChangeStatusLeaves` | packages/guild-gatekeeper/app/dev-api.ts:3784-3791 | It sets the status and the next version of this Activity and changes nothing else |
| `ActivityLaws.AddDependencyAccepted` | packages/guild-gatekeeper/app/dev-api.ts:3792-3824 | An edge is accepted exactly if both ends exist, it is new, its blocker is completed where work has started, and the predecessor does not reach back |
| `ActivityLaws.AddDependencyLeaves` | packages/guild-gatekeeper/app/dev-api.ts:3825-3860 | The accepted edge, in version 1, goes to the end of the list; the version of its Activity rises; nothing else changes |
| `ActivityLaws.RemoveDependencyAccepted` | packages/guild-gatekeeper/app/dev-api.ts:3861-3872 | A removal is accepted exactly if the first entry of the id belongs to the Activity and both versions are current |
| `ActivityLaws.RemoveDependencyLeaves` | packages/guild-gatekeeper/app/dev-api.ts:3873-3894 | Exactly the entries of that id go; the version of the Activity rises; nothing else changes |
| `ActivityLaws.WithoutAppend` | packages/guild-gatekeeper/app/dev-api.ts:3873-3873 | Removal acts on each part of the list by itself, so the other entries keep their order |
| `ActivityLaws.CompleteAccepted` | packages/guild-gatekeeper/app/dev-api.ts:3895-3913 | Completion is accepted exactly from active or completed, with a summary that is not blank, at most 100 distinct pieces of evidence, and completed blockers |
| `ActivityLaws.CompleteLeaves` | packages/guild-gatekeeper/app/dev-api.ts:3914-3945 | It sets the status, the next version and the next outcome, with the summary stripped of white ends, and changes nothing else |
| `ActivityLaws.AssignAccepted` | packages/guild-gatekeeper/app/dev-api.ts:3946-3952 | An assignment is accepted exactly for direct Activities and an active Actor with a preboarding or active membership, or nobody |
| `ActivityLaws.AssignLeaves` | packages/guild-gatekeeper/app/dev-api.ts:3953-3961 | It sets the assignee and the next version and changes nothing else |
| `ActivityLaws.EdgeStays` | packages/guild-gatekeeper/app/dev-api.ts:3792-3894 | Over any run an accepted edge is in the list from then on, until it is removed |
| `ActivityLaws.OppositeIsRefused` | packages/guild-gatekeeper/app/dev-api.ts:3811-3824 | While an edge is in the list, no edge that leads back along it is accepted, directly or over others |
| `BlueprintSpaces.WalkParents` | packages/guild-domain/src/blueprints.ts:700-706 | The parent walk terminates on every list and passes exactly when the chain of parents ends |
| `BlueprintSpaces.CheckSpaces` | packages/guild-domain/src/blueprints.ts:687-707 | The duplicate-key check with the walk accepts a list exactly when keys are unique, parents exist and the parent links form a forest |
| `BlueprintSpaces.SelfParentNeverEnds` | packages/guild-domain/src/blueprints.ts:697-699 | A Space that is its own parent is no forest, so the separate self-parent refusal is subsumed |
| `BlueprintSpaces.Stuck` | packages/guild-gatekeeper/app/dev-api.ts:1877-1879 | A pass that places nothing proves that a parent is missing or a chain of parents is endless |
| `BlueprintSpaces.ParentsFirstIsHierarchy` | packages/guild-gatekeeper/app/dev-api.ts:1859-1880 | A list in which every Space stands after its parent is a hierarchy |
| `BlueprintSpaces.SweepPass` | packages/guild-gatekeeper/app/dev-api.ts:1860-1876 | One backward pass with splice places a Space, or shows that none can be placed |
| `BlueprintSpaces.PlaceSpaces` | packages/guild-gatekeeper/app/dev-api.ts:1856-1880 | The sweep terminates, succeeds exactly on hierarchies, and places each Space once, under its own parent, parents first, with ids as drawn |
| `BlueprintSpaces.SweepAfterValidation` | packages/guild-gatekeeper/app/dev-api.ts:1856-1880 | After validation of the trimmed list the sweep of the written list succeeds exactly when every parent key occurs verbatim |
| `BlueprintSpaces.TrimmedSpacesAreMaterialised` | packages/guild-gatekeeper/app/dev-api.ts:1856-1880 | With trimmed keys the validator's verdict makes the sweep succeed |
| `BlueprintForms.RoleAgain` | packages/guild-domain/src/blueprints.ts:368-384 | A role is parsed to itself exactly when its texts are in normal form and it holds the permissions of a reviewed bundle, each once |
| `BlueprintForms.SpaceAgain` | packages/guild-domain/src/blueprints.ts:386-396 | A Space is parsed to itself exactly when its keys and texts are in normal form |
| `BlueprintForms.ActivityTypeAgain` | packages/guild-domain/src/blueprints.ts:411-435 | An Activity type is parsed to itself exactly when its 2 to 9 distinct states are a path through the transition table |
| `BlueprintForms.DecisionMethodAgain` | packages/guild-domain/src/blueprints.ts:437-451 | A Decision method is parsed to itself exactly when its procedure is any but one of the known ones and its texts are in normal form |
| `BlueprintForms.LongMethodIsRefused` | packages/guild-domain/src/blueprints.ts:437-451 | The Decision method whose name exceeds 20 characters is always refused |
| `BlueprintForms.PathIff` | packages/guild-domain/src/blueprints.ts:411-435 | Among distinct states the transition guard admits proper transitions only |
| `BlueprintForms.WorkflowAgain` | packages/guild-domain/src/blueprints.ts:453-477 | A workflow, nulls included, is parsed to itself exactly when its references have the form of types and keys |
| `BlueprintForms.AgentAgain` | packages/guild-domain/src/blueprints.ts:504-543 | An agent is parsed to itself exactly when the first role of its key backs its permissions and the rest is of its form |
| `BlueprintForms.AgentMeans` | packages/guild-domain/src/blueprints.ts:504-543 | In either schema the parser returns exactly the agents that the value reads as, missing limits and policy filled in for schema 1 only, and that meet the schema 2 conditions |
| `BlueprintForms.ConnectionAgain` | packages/guild-domain/src/blueprints.ts:579-606 | A connection suggestion is parsed to itself exactly when its kind is known and its allowlist holds known permissions, each once |
| `BlueprintForms.ExportAgain` | packages/guild-domain/src/blueprints.ts:634-657 | An export policy is parsed to itself exactly when its formats are known, each once, and there is one |
| `BlueprintForms.RoleMeans` | packages/guild-domain/src/blueprints.ts:368-384 | The parser returns exactly the roles that the value reads as and that are of their form; so do the lemmas named Means for every other part |
| `BlueprintForms.RolesMean` | packages/guild-domain/src/blueprints.ts:319-324 | A parsed list has the written items, each read by itself, in the written order and number; so do the lemmas named Mean for the other lists |
| `BlueprintForms.KeyIff` | packages/guild-domain/src/blueprints.ts:239-239 | A key is a letter followed by 1 to 62 letters, digits or hyphens |
| `BlueprintForms.TypeNameIff` | packages/guild-domain/src/blueprints.ts:241-241 | A type is a built-in one, or the custom prefix, a letter or digit, and 1 to 62 letters, digits, hyphens or underscores |
| `BlueprintForms.LabelsMean` | packages/guild-domain/src/blueprints.ts:677-681 | Vocabulary labels are returned as written, with nothing stripped |
| `BlueprintForms.StatusMeans` | packages/guild-domain/src/blueprints.ts:411-435 | Each status has its one name |
| `BlueprintJson.ListExact` | packages/guild-domain/src/blueprints.ts:319-324 | A description of the items describes the lists: parsed lists meet it, and a list survives exactly when its length fits and each item does |
| `BlueprintGrammar.ParseWith` | packages/guild-domain/src/blueprints.ts:659-830 | The parser's steps in order, with the Space loop, return exactly the declarative parse of either schema |
| `BlueprintGrammar.UpgradeSoundIff` | packages/guild-domain/src/blueprints.ts:723-769 | The upgrade refuses a consistent schema 1 blueprint exactly when its agent names an approval policy other than external-action |
| `BlueprintGrammar.NormalFormIff` | packages/guild-domain/src/blueprints.ts:659-830 | For any part parsers, a definition is parsed to itself exactly when its parts are and every check across parts passes |
| `BlueprintGrammar.DefinitionStable` | packages/guild-domain/src/blueprints.ts:659-830 | For any part parsers whose parts survive rendering, a parsed definition parses to itself |
| `BlueprintParser.UpgradeConstantsSurvive` | packages/guild-domain/src/blueprints.ts:723-829 | Every constant that the upgrade fills in is accepted unchanged by the schema 2 parsers |
| `BlueprintParser.ParseCollectiveBlueprintDefinition` | packages/guild-domain/src/blueprints.ts:659-830 | The concrete parser returns exactly the declarative parse |
| `BlueprintParser.ParsingIsStable` | packages/guild-domain/src/blueprints.ts:659-830 | Whatever is parsed, from schema 1 or 2, parses to itself: parsing is a stable normal form |
| `BlueprintParser.ChecksIff` | packages/guild-domain/src/blueprints.ts:687-785 | The parser's checks across parts, with first-match lookups, come to unique names, a Space hierarchy, resolving references and Human decisions |
| `BlueprintParser.NormalFormsAreWellFormed` | packages/guild-domain/src/blueprints.ts:659-830 | A definition is parsed to itself if and only if it is well formed: parts of their form, names unique, Spaces a hierarchy, references resolving, Humans deciding on external action |
| `BlueprintParser.ParsedIsWellFormed` | packages/guild-domain/src/blueprints.ts:659-830 | Whatever is parsed, from schema 1 or 2, is well formed: with stability, the well-formed definitions are exactly what the parser returns |
| `BlueprintReadings.ParseMeans` | packages/guild-domain/src/blueprints.ts:659-830 | For any input and any definition: the parser returns the definition if and only if the input reads as it, field by field, by schema 1 or 2, and it is well formed |
| `BlueprintReadings.Schema1ReadsIff` | packages/guild-domain/src/blueprints.ts:723-829 | Schema 1 returns the written core, the fixed texts of the upgrade with a human approval policy of risk 2, and the one suggested agent or none |
| `BlueprintReadings.Schema2ReadsIff` | packages/guild-domain/src/blueprints.ts:723-829 | Schema 2 returns the written core and extension, and the suggested agent must be the first recommended one again |
| `Text.StrippedIsTrim` | packages/guild-domain/src/blueprints.ts:297-302 | A text is read as the written one without white space at its two ends: nothing else is taken away, and no more could be |
| `BlueprintParser.ReferencesIntact` | packages/guild-domain/src/blueprints.ts:687-785 | In every parsed definition all cross references resolve, and every agent's permissions are safe, not human-only and held by its role |
| `BlueprintForms.BundleIsExact` | packages/guild-domain/src/blueprints.ts:344-357 | The comparison of counts is equivalent to holding exactly the permissions of a reviewed bundle, each once |
| `BlueprintParser.ParsedSpacesAreNormalised` | packages/guild-domain/src/blueprints.ts:386-396 | The parsed Spaces are the written ones with every string trimmed, in order |
| `BlueprintParser.AcceptedSpacesAreMaterialised` | packages/guild-gatekeeper/app/dev-api.ts:1856-1880 | For every accepted blueprint the sweep of its written Spaces succeeds exactly when every parent key occurs verbatim |
| `BlueprintSamples.SampleIsAccepted` | packages/guild-domain/src/blueprints.ts:659-830 | For any tables with a reviewed bundle and 19 labels there is a blueprint that is accepted |
| `BlueprintSamples.PaddedBlueprintIsAcceptedThenThrows` | packages/guild-gatekeeper/app/dev-api.ts:1856-1880 | A whole blueprint with one padded Space key is accepted, and the sweep of its written Spaces throws |
| `AuthorityMigration.CreateProposal` | packages/guild-domain/src/blueprints.ts:1379-1433 | The two loops return the proposal as a function of the two role lists |
| `MigrationLaws.ProposalByRole` | packages/guild-domain/src/blueprints.ts:1379-1433 | The proposal is, in order, what each blueprint role adds or changes against the last current namesake, then the current roles without a blueprint namesake, retired with all they hold |
| `MigrationLaws.MapMeans` | packages/guild-domain/src/blueprints.ts:1387-1388 | Of roles with one key the last counts, and only keys of roles occur |
| `MigrationLaws.OrderedIsListing` | packages/guild-domain/src/blueprints.ts:1374-1377 | Permissions are listed in the order of the table |
| `MigrationLaws.ListingIsOrdered` | packages/guild-domain/src/blueprints.ts:1374-1377 | In a table without repetition that order leaves one listing |
| `MigrationLaws.KeyMeans` | packages/guild-domain/src/blueprints.ts:1370-1372 | Role names are compared without white ends, in lower case |
| `AuthorityMigration.ProposalIsPatch` | packages/guild-domain/src/blueprints.ts:1379-1433 | Applying the impacts in any order turns the current role map into the proposed one |
| `AuthorityMigration.ProposalIsPatchIff` | packages/guild-domain/src/blueprints.ts:1370-1433 | The proposal is a patch in every order if and only if roles of one normalised name are consistent |
| `AuthorityMigration.DistinctNamesAreConsistent` | packages/guild-domain/src/blueprints.ts:1370-1372 | Roles with distinct normalised names are consistent |
| `AuthorityMigration.NothingToProposeIff` | packages/guild-domain/src/blueprints.ts:1379-1433 | There are no impacts exactly when the role maps agree and the namesakes are consistent |
| `AuthorityMigration.NamesakesConflict` | packages/guild-domain/src/blueprints.ts:1379-1433 | Two blueprint roles of one name with different permissions, and no current role of that name: some order of the impacts misses the proposed roles |
| `BlueprintSamples.AcceptedNamesakesConflict` | packages/guild-domain/src/blueprints.ts:1379-1433 | For any two reviewed bundles with different permissions there is an accepted blueprint whose proposal is no patch |
| `Permissions.IsSpaceWithin` | packages/guild-domain/src/permissions.ts:40-56 | The loop terminates on every snapshot and refines the recursive walk |
| `Permissions.SpaceWithinDecides` | packages/guild-domain/src/permissions.ts:40-56 | The walk says yes exactly when parent links reach the binding's Space, and throws exactly on an endless chain that misses it |
| `Permissions.AuthorizeMeans` | packages/guild-domain/src/permissions.ts:110-143 | authorize passes exactly when the declarative policy holds, on any snapshot |
| `PermissionLaws.AuthorizeIsPolicy` | packages/guild-domain/src/permissions.ts:18-143 | authorize passes exactly by the written-out policy: first matches, states preboarding and active, literal classifications per clearance, sharing, and a granting binding |
| `PermissionLaws.ParentSpacesMean` | packages/guild-domain/src/permissions.ts:40-56 | The walk follows the parents of the first Space of each id |
| `PermissionLaws.RanksMean` | packages/guild-domain/src/permissions.ts:101-107 | A clearance opens its own classification and those below |
| `PermissionLaws.ClearanceDecides` | packages/guild-domain/src/permissions.ts:101-107 | For every clearance, a snapshot in which exactly the classifications it opens are authorized |
| `PermissionLaws.LoweringKeepsAuthorization` | packages/guild-domain/src/permissions.ts:101-143 | Lowering the classification of a resource never takes an authorization away |
| `PermissionLaws.RaisingKeepsAuthorization` | packages/guild-domain/src/permissions.ts:101-143 | Raising a clearance never takes an authorization away |
| `PermissionRefusals.FirstFailureIsNamed` | packages/guild-domain/src/permissions.ts:110-143 | A refusal raises the error of the first check that fails, in the order of the thirteen checks |
| `PermissionRefusals.AllowedIffAllPass` | packages/guild-domain/src/permissions.ts:110-143 | No error is raised exactly if all checks pass |
| `Permissions.MovingDownKeepsAuthorization` | packages/guild-domain/src/permissions.ts:40-143 | An authorization survives moving the resource to any descendant Space whose chain of parents ends |
| `Permissions.AddingBindingKeepsAuthorizationIff` | packages/guild-domain/src/permissions.ts:68-143 | A further binding leaves an authorization standing exactly when it is well formed and its walk ends |
| `Permissions.AddingBindingOnForest` | packages/guild-domain/src/permissions.ts:68-143 | On forest snapshots a well-formed binding never removes an authorization |
| `Permissions.BindingTakesAuthorizationAway` | packages/guild-domain/src/permissions.ts:40-143 | On a snapshot of full integrity with a loop of Spaces, a well-formed binding takes an authorization away |
| `Permissions.CanDelegate` | packages/guild-domain/src/permissions.ts:158-166 | The loop passes exactly when every permission is authorized without a resource |
| `Permissions.WithoutResourceOnlyUnscopedBindings` | packages/guild-domain/src/permissions.ts:58-143 | Without a resource only root ownership and unscoped bindings grant anything |
| `Permissions.DelegablePermissionIsUsable` | packages/guild-domain/src/permissions.ts:58-166 | A delegable permission is usable on exactly the resources its holder can see, in every Space of a forest snapshot |
| `Permissions.EffectiveIsIntersection` | packages/guild-domain/src/permissions.ts:168-238 | An agent's effective set is the intersection of agent, requester, workflow and connector authority, and never human-only |
| `PermissionLaws.AgentPolicy` | packages/guild-domain/src/permissions.ts:168-212 | authorizeAgent passes exactly if the agent runs, its requester runs or is an active human, both may use the permission, and workflow and connector grant it |
| `PermissionRefusals.AgentRefusals` | packages/guild-domain/src/permissions.ts:168-212 | The errors of authorizeAgent in their order: the agent, its requester, the two authorizations, the two grants |
| `Permissions.EffectiveIsMonotone` | packages/guild-domain/src/permissions.ts:214-238 | Larger workflow and connector sets give a larger effective set |
| `Permissions.FilterAgreesWithEffective` | packages/guild-domain/src/permissions.ts:253-267 | The record filter keeps the order, and of each record exactly what its effective set says |
| `Decisions.DecisionStore.constructor` | packages/guild-gatekeeper/app/dev-api.ts:756-796 | The seeded Decision meets the invariant |
| `Decisions.DecisionStore.CreateDecision` | packages/guild-gatekeeper/app/dev-api.ts:4635-4671 | Refines the create step, with the refusals of texts, option counts and repeated labels |
| `Decisions.DecisionStore.SaveDecisionDraft` | packages/guild-gatekeeper/app/dev-api.ts:4672-4708 | Refines the draft step with the same refusals |
| `Decisions.DecisionStore.ProposeDecision` | packages/guild-gatekeeper/app/dev-api.ts:4709-4729 | Refines the propose step |
| `Decisions.DecisionStore.ReviewDecision` | packages/guild-gatekeeper/app/dev-api.ts:4730-4776 | Refines the review step with reason, quorum and option |
| `Decisions.DecisionStore.SupersedeDecision` | packages/guild-gatekeeper/app/dev-api.ts:4777-4803 | Refines the replacement step |
| `Decisions.LinksAfterStep` | packages/guild-gatekeeper/app/dev-api.ts:4777-4803 | A replacement redirects one link; every other call changes none |
| `Decisions.StepKeepsValid` | packages/guild-gatekeeper/app/dev-api.ts:4635-4803 | Every call keeps ids unique, replacement links a forest, and chosen options and approvals in place |
| `Decisions.NoSupersessionCycle` | packages/guild-gatekeeper/app/dev-api.ts:4709-4803 | No run closes a supersession cycle of two or more Decisions |
| `Decisions.SupersededDecisionsSettle` | packages/guild-gatekeeper/app/dev-api.ts:4709-4803 | Following replacements from a superseded Decision arrives at an approved one or one that replaced itself |
| `DecisionLaws.CreateMeans` | packages/guild-gatekeeper/app/dev-api.ts:4635-4671 | A Decision is accepted exactly on filled texts and 2 to 20 options with distinct keys, and starts in front as a draft in version 1 |
| `DecisionLaws.SaveDraftAccepted` | packages/guild-gatekeeper/app/dev-api.ts:4672-4681 | A draft is saved exactly on the current version of a draft with such content |
| `DecisionLaws.SaveDraftLeaves` | packages/guild-gatekeeper/app/dev-api.ts:4682-4708 | It replaces content and options, drops the reviews, raises the version and changes no other Decision |
| `DecisionLaws.ProposeAccepted` | packages/guild-gatekeeper/app/dev-api.ts:4709-4714 | A Decision is proposed exactly from draft or proposed, on its current version |
| `DecisionLaws.ProposeLeaves` | packages/guild-gatekeeper/app/dev-api.ts:4715-4729 | It becomes proposed with one required approval; nothing else changes |
| `DecisionLaws.ReviewAccepted` | packages/guild-gatekeeper/app/dev-api.ts:4730-4744 | A review is accepted exactly on a current, proposed Decision, once per reviewer, with a reason, and with one of the options exactly when it approves |
| `DecisionLaws.ReviewLeaves` | packages/guild-gatekeeper/app/dev-api.ts:4745-4776 | A rejection rejects; the approval that fills the quorum approves and selects its option; any other leaves the Decision proposed; the review is appended and the version rises |
| `DecisionLaws.SupersedeAccepted` | packages/guild-gatekeeper/app/dev-api.ts:4777-4788 | A Decision is replaced exactly from approved or superseded, on its current version, by an approved one |
| `DecisionLaws.SupersedeLeaves` | packages/guild-gatekeeper/app/dev-api.ts:4789-4803 | It becomes superseded and names its replacement; no other Decision changes |
| `DecisionLaws.SeedIsTallied` | packages/guild-gatekeeper/app/dev-api.ts:756-796 | The reviews of the seeded Decision add up |
| `DecisionLaws.ReviewsAddUp` | packages/guild-gatekeeper/app/dev-api.ts:4635-4803 | In every reachable state nobody reviewed a Decision twice, its count is of those who approved, and its status says whether its last review filled the quorum, rejected, or left it open |
| `Knowledge.KnowledgeStore.CreateKnowledge` | packages/guild-gatekeeper/app/dev-api.ts:3974-4013 | Refines the create step |
| `Knowledge.KnowledgeStore.SaveKnowledgeDraft` | packages/guild-gatekeeper/app/dev-api.ts:4014-4047 | Refines the save step with its refusals |
| `Knowledge.KnowledgeStore.StartKnowledgeRevision` | packages/guild-gatekeeper/app/dev-api.ts:4048-4068 | Refines the revision step with its refusals |
| `Knowledge.KnowledgeStore.ProposeKnowledge` | packages/guild-gatekeeper/app/dev-api.ts:4069-4082 | Refines the propose step for any version number |
| `Knowledge.KnowledgeStore.ReviewKnowledge` | packages/guild-gatekeeper/app/dev-api.ts:4083-4107 | Refines the review step for any version number |
| `Knowledge.KnowledgeStore.ArchiveKnowledge` | packages/guild-gatekeeper/app/dev-api.ts:4108-4121 | Refines the archive step |
| `Knowledge.KnowledgeStore.DeprecateKnowledge` | packages/guild-gatekeeper/app/dev-api.ts:4122-4131 | Refines the deprecate step |
| `Knowledge.ReachableItemsAreSound` | packages/guild-gatekeeper/app/dev-api.ts:3974-4131 | Over any run with any version arguments, numbers stay strictly descending and a canonical version is the one canonicalVersion names |
| `Knowledge.AtMostOneCanonical` | packages/guild-gatekeeper/app/dev-api.ts:3974-4131 | In every reachable state an item has at most one canonical version, the one it names |
| `Knowledge.HistoryIsAppendOnly` | packages/guild-gatekeeper/app/dev-api.ts:3974-4131 | No run removes, renumbers or rewrites a saved version |
| `Knowledge.PublishedAfterIff` | packages/guild-gatekeeper/app/dev-api.ts:4014-4131 | Every call on an item leaves it with its canonical version, if canonical, exactly when the caller was careful |
| `Knowledge.RunStaysPublishedIff` | packages/guild-gatekeeper/app/dev-api.ts:3974-4131 | Over any run canonical items always have their canonical version if and only if they start with it and every call is careful |
| `Knowledge.ApprovingMissingVersion` | packages/guild-gatekeeper/app/dev-api.ts:4083-4107 | On the seeded item, approving a missing version leaves the item canonical and nothing canonical in it |
| `Knowledge.ArchivingCanonicalVersion` | packages/guild-gatekeeper/app/dev-api.ts:4108-4121 | On the seeded item, archiving the canonical version leaves the item canonical and nothing canonical in it |
| `KnowledgeLaws.CreateLeaves` | packages/guild-gatekeeper/app/dev-api.ts:3974-4013 | A new item is put in front with one draft version of the given text |
| `KnowledgeLaws.UnknownChangesNothing` | packages/guild-gatekeeper/app/dev-api.ts:4014-4131 | A call on an unknown item changes nothing, and throws where the call has a guard |
| `KnowledgeLaws.SaveAccepted` | packages/guild-gatekeeper/app/dev-api.ts:4014-4018 | A save is accepted exactly on the current version of a draft |
| `KnowledgeLaws.SaveLeaves` | packages/guild-gatekeeper/app/dev-api.ts:4019-4047 | A saved draft becomes the newest version with the text as sent; older drafts are archived and keep their text; no other item changes |
| `KnowledgeLaws.StartRevisionAccepted` | packages/guild-gatekeeper/app/dev-api.ts:4048-4054 | A revision is accepted exactly on the canonical version that the item names and has |
| `KnowledgeLaws.StartRevisionLeaves` | packages/guild-gatekeeper/app/dev-api.ts:4055-4068 | A revision is a new draft with the text of the canonical version; earlier versions stay as they are |
| `KnowledgeLaws.RephasingLeaves` | packages/guild-gatekeeper/app/dev-api.ts:4069-4131 | For propose, review, archive and deprecate: the new phase of each version, and the phase, current and canonical version of the item |
| `KnowledgeLaws.IdsStayDistinct` | packages/guild-gatekeeper/app/dev-api.ts:3974-4131 | In every reachable state each item is the only one of its id |
| `Intents.IntentBoard.CreateIntentPlan` | packages/guild-gatekeeper/app/dev-api.ts:4171-4297 | A repeated request id returns the existing plan; a new plan is fresh and needs five acts |
| `Intents.IntentBoard.ActIntent` | packages/guild-gatekeeper/app/dev-api.ts:4306-4410 | Refines one act on one plan and touches no other |
| `Intents.IntentBoard.ReplaceIntentProposal` | packages/guild-gatekeeper/app/dev-api.ts:1734-1737 | Replaces exactly the plan with this id |
| `Intents.ActKeepsShape` | packages/guild-gatekeeper/app/dev-api.ts:4333-4410 | An act keeps the shape succeeded, at most one staged, pending, and moves on exactly when the action in turn succeeded |
| `Intents.ActLowersRank` | packages/guild-gatekeeper/app/dev-api.ts:4306-4410 | Every act before expiry lowers the rank by exactly one, never reports busy, and leaves succeeded actions alone |
| `Intents.RunIsShaped` | packages/guild-gatekeeper/app/dev-api.ts:4306-4410 | Every reachable state of a plan of any length has the shape, with the rank it must have |
| `Intents.CompletesAfterRankActs` | packages/guild-gatekeeper/app/dev-api.ts:4306-4410 | A plan is completed exactly after one act per plain action and three per agent run, and exactly when all actions succeeded |
| `Intents.SucceededIsFinal` | packages/guild-gatekeeper/app/dev-api.ts:4306-4410 | A succeeded action never changes again and was attempted once |
| `Intents.ExpiryIsFinal` | packages/guild-gatekeeper/app/dev-api.ts:4310-4332 | Expiry cancels what is open, keeps what succeeded, and no later act changes the plan |
| `Intents.ActMeans` | packages/guild-gatekeeper/app/dev-api.ts:4333-4410 | What each act answers and leaves: plain actions succeed at once, agent runs are staged, approved, then succeed, and only the success of the last action answers completed |
| `Intents.EndedMeans` | packages/guild-gatekeeper/app/dev-api.ts:4324-4332 | A plan that has ended answers how it ended and stays as it is |
| `Intents.ExpiryMeans` | packages/guild-gatekeeper/app/dev-api.ts:4310-4323 | The act that finds a plan expired cancels every open action and nothing else |
| `Intents.BusyMeans` | packages/guild-gatekeeper/app/dev-api.ts:4378-4379 | Only without a staged or pending action the answer is busy, and the plan stays as it is |
| `Intents.FindFinds` | packages/guild-gatekeeper/app/dev-api.ts:4308-4309 | The first plan of the id is found, and none only if there is none |
| `AgentWorkflow.ReadState` | packages/guild-gatekeeper/src/agent-workflow.ts:58-59 | A read with retries yields what the world held at the first read that succeeded |
| `AgentWorkflow.OpenRun` | packages/guild-gatekeeper/src/agent-workflow.ts:57-79 | The first part of the try block passes on exactly runs of this instance that are alive and, at risk 2 or higher, opened for approval |
| `AgentWorkflow.Attempt` | packages/guild-gatekeeper/src/agent-workflow.ts:57-110 | The try block executes exactly after the observations that make the run ready, and on a prompt world stops only where it must |
| `AgentWorkflow.Decide` | packages/guild-gatekeeper/src/agent-workflow.ts:93-109 | A ready run is executed once and the result is what the execution came to; otherwise nothing is done |
| `AgentWorkflow.ExecutesAfterMeans` | packages/guild-gatekeeper/src/agent-workflow.ts:57-100 | The sequences of one, two or three observations after which a run is executed, case by case |
| `AgentWorkflow.RecordFailure` | packages/guild-gatekeeper/src/agent-workflow.ts:119-122 | The failure step with its retries records only over the state just read |
| `AgentWorkflow.Recover` | packages/guild-gatekeeper/src/agent-workflow.ts:110-124 | The catch block reports the terminal state it reads, or records a failure over the live one |
| `AgentWorkflow.RunGuildAgentWorkflow` | packages/guild-gatekeeper/src/agent-workflow.ts:45-125 | Against any world: what was seen is what the world held, the run is executed at most once, only on an observed approval if it needed opening and the world never resets one, and never recorded as failed over a terminal state just read |
| `AgentWorkflow.ExecutionIsApproved` | packages/guild-gatekeeper/src/agent-workflow.ts:67-101 | In every world that never resets an approval, a run first seen in planning at risk 2 or higher is executed only after an observed approval |
| `AgentWorkflow.LawfulExecution` | packages/guild-domain/src/agent.ts:16-23 | In every world that follows the transition table, the only other way to execute is a running run without approval record |
| `AgentWorkflow.LeadsMeans` | packages/guild-domain/src/agent.ts:16-23 | The transition table leads forward only, and nowhere from a run that is over |
| `AgentWorkflow.ForgottenApprovalIsExecuted` | packages/guild-gatekeeper/src/agent-workflow.ts:67-101 | A world that follows the table and loses an approval record has the run executed without it |
| `BoundedJson.CheckBounded` | packages/guild-domain/src/agent.ts:176-211 | With any counter state the recursion accepts exactly the bounded values, and its calls are bounded by the values admitted |
| `BoundedJson.AssertBoundedJson` | packages/guild-domain/src/agent.ts:176-211 | Accepts exactly values of height at most 10 with at most 500 contained values, finite numbers and valid keys, in at most 501 visits on any input |
| `BoundedPaths.BoundedMeans` | packages/guild-domain/src/agent.ts:176-211 | The accepted values, told by places: at most 500 paths lead anywhere below the value, none is longer than 10, and every place holds a finite number, a plain object with filled keys, or something else |
| `BoundedPaths.NestedIff` | packages/guild-domain/src/agent.ts:176-211 | The recursion accepts exactly if every place is proper and no path too long, for any depth |
| `BoundedPaths.PlacesOf` | packages/guild-domain/src/agent.ts:192-207 | The counted size is the number of places below the value |
| `Governance.GuardIsExact` | packages/guild-domain/src/governance.ts:39-98 | From root-owner integrity a change passes exactly when it is orderly and integrity still holds after it |
| `Governance.GuardMeans` | packages/guild-domain/src/governance.ts:39-98 | What each guard lets through, record by record, and that a refused change changes nothing |
| `Governance.RefusalMeans` | packages/guild-domain/src/governance.ts:39-98 | Which error each refusal raises |
| `Governance.ActiveHumanMeans` | packages/guild-domain/src/governance.ts:23-37 | The first identity of the id is an active human, and its first membership active |
| `Governance.TableBothWays` | packages/guild-domain/src/constants.ts:340-347 | The transition table of memberships, told from where each state comes |
| `Governance.MembershipAt` | packages/guild-domain/src/governance.ts:39-61 | An accepted membership change sets the state of that one membership |
| `Governance.IdentityAt` | packages/guild-domain/src/governance.ts:63-74 | An accepted status change sets the status of that one identity |
| `Governance.RootOwnerStays` | packages/guild-domain/src/governance.ts:23-98 | Every run of guarded changes keeps the Root Owner an active human with an active membership |
| `Governance.DepartedStayDeparted` | packages/guild-domain/src/governance.ts:39-61 | Departure is final over every run |
| `Governance.OnlyTheOwnerTransfers` | packages/guild-domain/src/governance.ts:76-98 | Root ownership changes only through a transfer by its holder |

## Left out

- Actor modes and capability gating of the API, error messages, timestamps and the Chronicle: a refusal is one outcome that leaves the state unchanged.
- UUID generation and clocks: fresh ids and times are arguments; drawn ids are assumed new and not empty.
- String length in UTF-16 code units: lengths are counted in characters.
- Locale-dependent lower-casing of role names and option labels: a parameter, so the results hold for any such function.
- The tables of permissions, reviewed bundles, safe and human-only permissions and vocabulary labels: parameters, so the results hold for any such tables.
- Method, visibility, classification, sources and dates of Decisions, and the selected flag of an option: carried along, or derived from the selected option.
- Knowledge files and acknowledgements: they do not touch versions or phases.
- Property names inherited from Object.prototype in untyped input: an object's fields are its own.
- `filterAuthorizedResources` and `isAuthorized`: they follow from `AuthorizeMeans` record by record.
- `intersectAgentLimits` and `assertUsageWithinLimits`: minimum and comparison by component.
- `parseCollectiveBlueprintDraft` and the generators of blueprints, archetypes and localised copy: data around the parsed definition.
- Goals, Projects, Quests and Steps: they appear only as structured work that changes freely between calls.
- Private-message promotion: its key lookup and its store are separated by an await.
- Replay of completed workflow steps from durable storage: a step that has returned is not called again.
- PostgreSQL repositories, webhooks, cryptography and the user interface.
