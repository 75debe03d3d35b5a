# A verified model of the deployment infrastructure

The system compiles a policy written in a small Lisp into containers, labels, connections and
machines, stores them in an in-memory database, and keeps clouds, networks and containers in
step with that database. This project models its central algorithms in Dafny and proves what
they keep, compute and converge to.

`dafny verify dfyconfig.toml` checks everything.

## Layout

| files | subject |
|---|---|
| `Basics` | optional values and sequences without duplicates |
| `Syntax`, `Names`, `Literals`, `Parser`, `World`, `Prims`, `Evaluator` | the policy language: syntax, parser, printer, evaluator |
| `WorldInvariant`, `EvalInvariant`, `EvalLaws` | what every evaluation keeps, and laws of evaluation |
| `Imports` | import resolution, and shipping a program as text |
| `Placement` | exclusive placement from the policy to the scheduler's constraints |
| `Counting`, `GreedyJoin` | the greedy join that all synchronisation code uses |
| `Database`, `Reconcile`, `Connections`, `Machines` | tables and the transactions that bring them in line with a spec |
| `CloudSync` | the loop that boots and stops machines |
| `Elector` | leader election over an expiring key |
| `Triggers` | the notification protocol of the database |
| `Text`, `Addresses`, `TreeStore`, `Directories`, `Making`, `AddressSync`, `LabelSync` | the consensus store and the allocation of addresses in it |
| `Acl`, `OpenFlow` | compilation of connections and labels into rules, and what the rules do to packets |
| `Supervisor` | starting and stopping the system containers |

## How the source is rendered

* Code that updates objects or maps in place is written as classes and methods with loops;
  each method is proved equal to a function of its inputs or tied to a property, and lemmas
  say what these functions achieve. Iteration over a Go map takes an arbitrary order.
* The evaluator threads an explicit heap of contexts, stores and atoms, because its contexts
  are shared and captured. It takes a fuel argument: `Language.md` says that the language has
  no recursion and always terminates, but a closure can be applied to itself. Outcomes do not
  depend on the fuel once it suffices (`EvalLaws.Deterministic`). An error carries no state,
  as the source returns an empty context with it.
* Protocols with several parties (election, triggers) are state machines over their atomic
  steps, and the results hold for every run. A minion's campaign loop is cut wherever the
  store, the database or the clock can intervene; a write to the store may be acknowledged,
  refused, or take effect without an acknowledgement.
* Randomness, failures of external services and the choice among flows of equal priority are
  nondeterministic; sorting and the spelling of addresses are function parameters with the
  one property that is used. Integers of the language wrap at 64 bits and divide toward zero.

## Properties that fail, and exactly when

* Shipping by text: the minion gets the program of the controller exactly if every string
  prints as one literal and no float prints as an integer (`Imports.Shipped`). The parser
  cuts the literal `"x\""` to `x\`, whose printed form `"x\"` has no closing quote; of the
  strings that can be parsed, these are the ones that end in an odd number of backslashes
  (`Parser.PrintableString`, `Parser.DanglingBackslash`). The scanner then reports an error,
  or it takes in the text up to another quote and may even go on to accept a different
  program, as with `(list "x\" ")//")` (`Parser.Misread`, `Parser.Swallowed`). Integral floats
  below 1e6 come back as integers. A program that gets through and evaluates at the
  controller has the same outcome at the minion exactly if no imported file is empty
  (`Imports.Shipping`): an empty one becomes `(module "name")`, a call with too few arguments
  (`Imports.EmptyImport`).
* Evaluating a value again gives the value itself exactly if it has no nil list in it
  (`EvalLaws.ValueFixed`): `(list)` is nil, its second evaluation makes it empty, and `=`
  tells the two apart, so `((lambda (x) (= x (list))) (list))` is false
  (`EvalLaws.NilArgument`).
* Election: a leader that stops renewing keeps its flag after the key has expired, and then
  a second leader can appear (`Elector.LapseOccurs`, `Elector.LapseIsUnsafe`). Safety holds
  if every holder's last acknowledged write is less than the TTL ago.
* `writeStoreLabels` looks up the address of a single-host label under `dir[dbc.IP]` instead
  of `dir[label]`. A label misses its host's address exactly when that address is itself a
  label in use that holds it, and the label did not have it before
  (`LabelSync.SingleExactly`, `LabelSync.ShadowOccurs`); over whole runs all passes are good
  exactly if none meets such a label (`LabelSync.RunGood`).
* A label with a slash in its name never appears in the label directory
  (`LabelSync.SlashedLabel`). Names are paths, so making an entry fails exactly if its path is
  there already, below an entry that stays, or if a label below it was made before
  (`LabelSync.MissedExactly`). The pass then assigns to a nil map: with a working store it
  panics exactly if a label with several hosts is among those (`LabelSync.WriteStoreLabels`).
  This happens to a label that spells another label's key (`LabelSync.KeyTaken`), and to a
  label without any slash if one below it is listed first (`LabelSync.BelowFirst`).
* Addresses in the store stay distinct while failed writes have no effect. If one did take
  effect, its address is drawn again and stored twice (`AddressSync.LostReply`).
* The loop that boots machines comes to rest after one round if no machine may serve rows of
  two kinds (`CloudSync.SettlingServed`). Where a provider leaves out an attribute, that can
  fail, and the second round can boot and stop machines (`CloudSync.UnknownSize`).
* `DeleteACL` ignores the action. From an arbitrary table an update leaves exactly the wanted
  rules unless a stale row has the direction, priority and match of a wanted rule
  (`Acl.ExactlyIff`, `Acl.ActionClash`); tables written by updates alone never have one.
* The supervisor comes to the same containers after every history exactly if the
  configuration is complete (`Supervisor.HistoryIndependence`); an incomplete one leaves
  earlier containers running. A worker whose minion row is missing at the second look gets
  its containers exactly if its controller already ran with this leader and address
  (`Supervisor.StepTarget`); otherwise it has no controller, or one at the old leader, and
  the same configuration never repairs it (`Supervisor.ControllerMissed`).

## Model

| member | source | states |
|---|---|---|
| `GreedyJoin.Join` | join/join.go:24-68 | the loops over both slices give the greedy pairing, lonely lefts and lonely rights, in the order the source produces them |
| `GreedyJoin.PickBest` | join/join.go:41-56 | the scan stops at a right of minimal non-negative score, at the first zero if there is one, and at -1 if no right can match |
| `GreedyJoin.SliceDel` | join/join.go:70-75 | deletion in place overwrites the deleted position with the last element and keeps the others |
| `GreedyJoin.Partition` | join/join.go:24-68 | lefts and rights are each partitioned, as multisets, into paired and lonely ones |
| `GreedyJoin.Optimal` | join/join.go:38-65 | each pair has a non-negative score, minimal among all rights that were still available |
| `GreedyJoin.Lonely` | join/join.go:38-65 | no lonely left and lonely right could have been matched |
| `GreedyJoin.KeyCounts` | join/join.go:38-65 | if matching means equal keys, each key gets as many pairs as the smaller side has elements with it |
| `GreedyJoin.Maximum` | join/join.go:38-65 | if matching means equal keys, no matching of the inputs is larger than the greedy one |
| `GreedyJoin.Perfect` | join/join.go:38-65 | if both sides have the same keys, nothing stays lonely |
| `GreedyJoin.Exact` | join/join.go:43-53 | if both sides have the same identities and score zero means the same identity, each element is paired with its own |
| `GreedyJoin.Difference` | join/join.go:24-68 | if matching means equality, what stays lonely is the multiset difference of the two sides |
| `Names.NameRoundTrip` | dsl/func.go:25-94 | the spelling of a built-in is looked up as that built-in |
| `Parser.Scanner.ReadName` | dsl/parse.go:48-56 | the loop over periods reads exactly one dotted name, or fails |
| `Parser.Scanner.ParseText` | dsl/parse.go:40-93 | recursive descent over the shared scanner gives the forms up to the closing parenthesis, or fails on unbalanced ones |
| `Parser.ParsedReadable` | dsl/parse.go:29-93 | everything parsed is in the fragment the printer can print and the parser read back |
| `Literals.LiteralExact` | dsl/parse.go:64-66 | between quotes, and before any text, the scanner reads a string as one literal exactly if it is a sequence of characters and complete escapes |
| `Literals.Unterminated` | dsl/parse.go:18-21 | after a text ending in an open backslash the closing quote is taken into the literal, and without a further quote the scanner reports an error |
| `Literals.ClosedExactly` | dsl/parse.go:64-66 | of the texts that trimming leaves, those that read back are the ones that end in an even number of backslashes |
| `Parser.LiteralTrim` | dsl/parse.go:64-66 | trimming a literal drops an escaped quote at its end but keeps the backslash, and the rest reads back exactly if there was none |
| `Parser.PrintParse` | dsl/ast.go:141-195 | the tokens a term is printed to have parse, in any context, to the term with each module as a `(module ...)` expression |
| `Parser.Misread` | dsl/ast.go:180-183 | whatever follows the printed form of a string, the scanner reads it back exactly if it is closed; otherwise it reports an error or reads another string |
| `Parser.Swallowed` | dsl/parse.go:64-66 | after an open backslash everything up to the next quote is taken into the literal |
| `Parser.ParsedTexts` | dsl/parse.go:40-93 | the strings of what is parsed are those of the tokens, in order, and an error token is never passed over |
| `Parser.ProgramRoundTrip` | dsl/ast.go:141-143 | the tokens a program is printed to have parse to its terms in order |
| `Parser.RereadIsShip` | dsl/ast.go:145-187 | what the parser reads back is the original with modules as expressions exactly if no float prints as an integer |
| `Parser.SurvivesExactly` | dsl/ast.go:141-187 | whatever the scanner makes of the printed text, it parses to the program exactly if its strings print as literals and no float prints as an integer |
| `Parser.PrintableString` | dsl/ast.go:180-183 | a parsed string prints as a literal exactly if it does not end in an odd number of backslashes |
| `Parser.DanglingBackslash` | dsl/parse.go:64-66 | every literal that ends in an escaped quote is parsed, and its printed form is not read back as it; without another quote the scanner reports an error |
| `Imports.ResolveImports` | dsl/imports.go:16-71 | the loop with recursion terminates on any finite set of files, modules on the chain excluded, and gives the specified resolution |
| `Imports.ResolveExactly` | dsl/imports.go:16-98 | resolution succeeds exactly if every reachable module opens and parses, has its imports on top, and is not reachable from itself |
| `Imports.ResolveResult` | dsl/imports.go:16-71 | the result contains no import form in any body and only printable terms |
| `Imports.ResolveNothing` | dsl/imports.go:16-71 | a program without imports resolves to itself |
| `Imports.ModuleCall` | dsl/func.go:939-951 | calling the built-in `module` is evaluating a module with that body, if the body is not empty |
| `Imports.ShipEval` | dsl/eval.go:211-233 | a term and its shipped form have the same outcome in every context unless a module is empty, and then the shipped form fails |
| `Imports.Shipped` | dsl/dsl.go:69-86 | whatever its scanner makes of the printed text, a minion has the same program exactly if its strings print as literals and its floats keep their kind; if only the strings do, it has the program with those floats as integers |
| `Imports.Shipping` | dsl/dsl.go:69-86 | such a program reaches the same state at the minion as at the controller, down to containers, labels, connections and bindings, unless an imported file is empty, and then it fails there |
| `Imports.EmptyImport` | dsl/imports.go:30-68 | a program that imports an empty file, evaluates at the controller and fails at the minion |
| `WorldInvariant.GlobalShared` | dsl/eval.go:15-20 | every context, captured or not, leads to a global context over the one global store |
| `WorldInvariant.DeepCopySees` | dsl/eval.go:22-41 | a copied context sees the bindings its original saw |
| `WorldInvariant.DeepCopyInv` | dsl/eval.go:22-41 | copying keeps all invariants and changes no existing context |
| `WorldInvariant.ResolveGood` | dsl/func.go:1156-1172 | a string resolves exactly if it is "public" or a declared label, to the label with the declared members, and labels resolve to themselves |
| `WorldInvariant.LabelGood` | dsl/func.go:479-532 | a label declaration records exactly the atoms of its flattened arguments and keeps "an atom is a member of a label iff it carries it" |
| `WorldInvariant.PlacementGood` | dsl/func.go:239-286 | a placement adds exactly the pairs of its labels to the exclusion sets of exactly their containers, and changes nothing else |
| `WorldInvariant.PlacementMade` | dsl/func.go:239-286 | after a placement every container of its labels excludes every pair of them |
| `WorldInvariant.MadeGrows` | dsl/func.go:239-286 | in every later state the same arguments name the same labels and the exclusions are still there |
| `WorldInvariant.PrimGood` | dsl/func.go:155-552 | every built-in keeps all invariants of the state and forgets nothing |
| `EvalInvariant.EvalGood` | dsl/eval.go:54-274 | evaluation of any term in a writable context keeps the invariants, writes only to that context and to new ones, and returns a settled value with live references whose placements have all been made |
| `EvalInvariant.CallGood` | dsl/eval.go:75-98 | a call writes only to the context it creates |
| `EvalInvariant.SettledQuiet` | dsl/eval.go:62-98 | re-evaluating a result writes to no existing context |
| `EvalLaws.Deterministic` | dsl/eval.go:43-52 | all fuels with which a program finishes give the same outcome |
| `EvalLaws.ValueFixed` | dsl/eval.go:62-73 | every result of evaluation, placements included, evaluates to itself with nil lists made empty, in any context, changing nothing but unreachable contexts; it is a fixed point exactly if it has no nil list |
| `EvalLaws.NormalFixed` | dsl/eval.go:62-73 | making nil lists empty changes exactly the values that have one |
| `EvalLaws.NilArgument` | dsl/func.go:135-137 | two empty lists are equal, and not equal once one of them has been passed to a function |
| `EvalLaws.PlacementAgain` | dsl/func.go:239-286 | a placement made again, in any later state and from any context, changes nothing |
| `EvalLaws.PlacementFixed` | dsl/func.go:239-286 | so the result of a placement evaluates again to itself, up to nil lists, and changes nothing |
| `EvalLaws.EveryResult` | dsl/eval.go:54-274 | whatever evaluation returns is a result in this sense, in all contexts |
| `EvalLaws.CallOnce` | dsl/eval.go:75-98 | a call runs the body once on the normal forms of the given arguments although it evaluates them again |
| `EvalLaws.LetOnce` | dsl/func.go:803-844 | each binding of a `let` takes effect once although its value is evaluated three times |
| `EvalLaws.LetResults` | dsl/func.go:803-844 | the values of a `let` are results in every state that keeps the invariants |
| `EvalLaws.MapOnce` | dsl/func.go:1011-1045 | each step of `map` with a closure is one run of its body on the normal forms of the row |
| `EvalLaws.MapBuiltin` | dsl/func.go:1011-1045 | each step of `map` with a built-in is one application to the normal forms of the row, or to the row itself if the built-in evaluates its own arguments |
| `EvalLaws.CapturedFrozen` | dsl/func.go:786-801 | a captured context and its ancestors are never changed by later evaluation |
| `EvalLaws.ClosureStable` | dsl/func.go:786-801 | a closure sees the same bindings for as long as it lives |
| `EvalLaws.ProgramInvariant` | dsl/eval.go:43-60 | in every state a program reaches there is one global store, label membership and label lists agree, no list has duplicates, and every atom is registered once |
| `EvalLaws.LedgerCount` | dsl/func.go:155-177 | containers and machines together are as many as atoms were declared |
| `Placement.MakeEnv` | minion/scheduler/swarm.go:76-98 | the nested loops give the variables and one constraint for each label excluded by one of the container's labels |
| `Placement.PairPlaced` | dsl/func.go:239-286 | every container of the i-th label gets the pair with the j-th, in one of the two orders |
| `Placement.ExclusiveHolds` | dsl/func.go:239-286 | after an exclusive placement each container carrying one label is constrained against the other, whatever is evaluated afterwards, also for a label listed twice |
| `Elector.InvStep` | minion/elector/elector.go:49-130 | every step of campaign, commit, watch and clock keeps "a holder owns the key for as long as its lease lasts" |
| `Elector.ElectionSafety` | minion/elector/elector.go:49-130 | in every run with kept leases, at every point, at most one minion is leader, and it owns the live key |
| `Elector.LapseIsUnsafe` | minion/elector/elector.go:88-96 | from any state with an expired key and a leader, another minion about to create the key becomes leader as well |
| `Elector.LapseOccurs` | minion/elector/elector.go:81-84 | a run that reaches such a state |
| `Elector.LeaderAddress` | minion/elector/elector.go:23-47 | a recorded leader address is empty or belongs to a minion that has owned the key, with no assumption on timing |
| `Triggers.WatchedTable.Alert` | db/table.go:49-67 | stopped triggers are dropped, and the others get a notification if the table changed since the last alert |
| `Triggers.RunInv` | db/db.go:50-84 | in every interleaving a trigger that is not informed of a change has its table still to be alerted |
| `Triggers.NoLostWakeups` | db/db.go:50-113 | once a table's alert has run, every unstopped trigger has a pending notification or was received from after the last change |
| `Database.Table.constructor` | db/table.go:42-47 | a table starts empty |
| `Database.Table.Insert` | db/db.go:115-147 | an inserted row gets an ID that was never handed out before |
| `Database.Table.Commit` | db/db.go:122-136 | a commit writes the row, and counts as a change exactly if the row differs |
| `Database.Table.Remove` | db/db.go:138-142 | removal deletes the row and counts as a change |
| `Reconcile.SettledContents` | engine/engine.go:197-222 | removing lonely rows, inserting rows for lonely specs and committing all pairs leaves one written row per target and touches nothing outside the selection |
| `Connections.UpdateConnections` | minion/engine.go:35-69 | the table ends up with exactly the spec's connections, one row each, from any table and row order; if it had them, no row and no change counter moves |
| `Connections.ReadLabelTransact` | minion/network/store.go:118-142 | the label table ends up with exactly one row per directory key with its address and mark; a second pass changes nothing |
| `Connections.ConnectionsExact` | minion/engine.go:36-49 | on a table that holds the spec every row is matched with an equal connection |
| `Connections.LabelsExact` | minion/network/store.go:119-125 | on a table that agrees with the directory every row is matched with its own key, although unequal names may match |
| `Machines.CanBoot` | engine/engine.go:148-156 | true exactly if there is a master and a worker |
| `Machines.MachineTxn` | engine/engine.go:158-225 | the cluster's rows carry exactly the wanted policies (none if it cannot boot), kept rows keep cloud ID and addresses, other clusters are untouched, and among explicit rows no removed one scores better than a kept one of its kind |
| `Machines.Rerun` | engine/engine.go:158-225 | running again with the same explicit spec keeps every row ID |
| `Machines.AllMatched` | engine/engine.go:173-197 | explicit rows that carry the wanted policies are all matched |
| `CloudSync.Round` | cluster/cluster.go:142-198 | after a round every row has a compatible machine of its own and there are no others; then the next boots and stops nothing if no machine may serve rows of two kinds; a round that boots and stops nothing links every row to its machine, and after that no row changes; if all attributes are given, one round gives exactly the wanted kinds |
| `CloudSync.Sync` | cluster/cluster.go:142-198 | the eight rounds end with a compatible machine per row and no others, and if all attributes are given, with cloud and table in agreement and linked |
| `CloudSync.SyncDB` | cluster/cluster.go:200-244 | the matching pairs compatible rows and machines and leaves none of a settled cloud lonely |
| `CloudSync.JoinMatches` | cluster/cluster.go:200-244 | rows and machines are partitioned into matched and lonely ones, and matched ones are compatible |
| `CloudSync.Serving` | cluster/cluster.go:142-244 | the matched machines and the booted ones serve the rows one to one, and the others are stopped |
| `CloudSync.UnknownSize` | cluster/cluster.go:206-211 | a machine of unknown size goes to another row in the second round, which boots and stops a machine |
| `CloudSync.Settling` | cluster/cluster.go:200-244 | if cloud and table agree on kinds and all attributes are given, nothing is booted or stopped |
| `CloudSync.SettlingServed` | cluster/cluster.go:200-244 | for any attributes, if every row has a compatible machine of its own and no machine may serve rows of two kinds, nothing is booted or stopped |
| `CloudSync.Steady` | cluster/cluster.go:200-244 | linked rows find their own machines and report nothing new |
| `Addresses.RoundTrip` | minion/network/store.go:343-346 | an address printed as a dotted quad parses to itself |
| `Addresses.DottedExact` | minion/network/store.go:416-428 | dotted quads are a spelling as the allocation needs it: what is printed reads back, and the empty string is no address |
| `TreeStore.Store.MakeDir` | minion/consensus/mock.go:98-124 | all nodes on the path exist afterwards, unless the key existed |
| `TreeStore.Store.Write` | minion/consensus/mock.go:164-180 | the value is created or updated, with the directories on the way |
| `TreeStore.Store.Remove` | minion/consensus/mock.go:149-162 | the subtree is removed, or an error if it is not there |
| `TreeStore.Store.Read` | minion/consensus/mock.go:126-147 | the subtree at a path |
| `TreeStore.SubPath` | minion/consensus/mock.go:182-196 | a key appended to a directory path is split off again |
| `TreeStore.DirRoute` | minion/consensus/mock.go:193-196 | the directory of a path leads to the components before the last, unless the path starts with two slashes |
| `Directories.GetDirectory` | minion/network/store.go:398-414 | the loops give the first two levels below the path |
| `Directories.MakeBase` | minion/consensus/mock.go:104-124 | making a directory leaves it as it was or empty, and nothing beside it changes |
| `Directories.MakeEntry` | minion/consensus/mock.go:104-124 | making a missing entry adds it empty to the directory and changes nothing else |
| `Directories.SetFile` | minion/consensus/mock.go:62-96 | writing a key of an entry changes that key in the directory and nothing else |
| `Directories.DeleteEntry` | minion/consensus/mock.go:149-162 | deleting an entry removes it from the directory and changes nothing else |
| `Directories.DeleteFile` | minion/consensus/mock.go:149-162 | deleting a key of an entry removes it, with an error exactly if it was not there |
| `Directories.SlashUnlisted` | minion/consensus/mock.go:182-191 | no entry of any directory has a slash in its name |
| `Directories.KeepsSliced` | minion/consensus/mock.go:98-180 | no operation on any path creates such a name |
| `AddressSync.RandomIP` | minion/network/store.go:432-441 | the first free address among at most 256 draws, or zero exactly if all of them are taken |
| `AddressSync.SyncIPs` | minion/network/store.go:315-360 | for any draws and store failures, valid addresses stay, new ones are in the prefix, and addresses are distinct and not the gateway's exactly if they were before; the addresses in the store follow those in the cache if failed writes have no effect |
| `AddressSync.MirrorStep` | minion/network/store.go:343-352 | an allocation whose write takes effect exactly if it is acknowledged keeps store and cache at the same addresses |
| `AddressSync.MirrorSafe` | minion/network/store.go:315-360 | then the addresses in the store are distinct exactly if those in the cache are |
| `AddressSync.LostReply` | minion/network/store.go:347-353 | after a failed write that did take effect the next entry can be stored with the same address |
| `AddressSync.GatewayIn` | minion/network/store.go:330-331 | the gateway's address is excluded from 10.0/16 only |
| `Making.MakeName` | minion/consensus/mock.go:98-124 | an entry can be made exactly if there is no node at its path, and then all nodes on the way are there and nothing beside the directory changes |
| `Making.MadeNodes` | minion/network/store.go:294-306 | after making names in order a node is there exactly if it was before or is on the way to one of them |
| `Making.MissedName` | minion/network/store.go:294-306 | a name cannot be made exactly if its path was there or a name below it comes before |
| `AddressSync.SyncDir` | minion/network/store.go:274-312 | wanted names keep their entries and unwanted ones go; with a working store the entries made and the store's nodes are those of making the missing names in order, and without slashes all are made and the store shows the same |
| `AddressSync.JoinNames` | minion/network/store.go:275-281 | exactly the keys that are not wanted, and all names that are not keys, stay lonely |
| `LabelSync.LabelMap` | minion/network/store.go:209-215 | each label is mapped to its containers, once per listing |
| `LabelSync.HostsAreContainers` | minion/network/store.go:209-219 | if no container lists the label twice, its hosts are as many as the containers that list it |
| `LabelSync.WriteStoreLabels` | minion/network/store.go:188-272 | the pass panics exactly if a label with several hosts is among those whose entry could not be made; with a working store these are the stuck labels; if no label has a slash there are none, the directory re-read from the store is what a pass should make of the one before, and the rest of the store is untouched |
| `LabelSync.Listed` | minion/network/store.go:195-240 | after a pass exactly the labels in use are there, marked exactly if they have several hosts |
| `LabelSync.SingleExactly` | minion/network/store.go:242-261 | a label with one host ends up at its host's address exactly if it is not shadowed |
| `LabelSync.ShadowOccurs` | minion/network/store.go:248-251 | two passes after which a label is not at its host's address |
| `LabelSync.PassGood` | minion/network/store.go:188-272 | from a directory with distinct addresses, a pass leaves each single-host label at its host and the others at distinct addresses in 10.1/16 |
| `LabelSync.RunGood` | minion/network/store.go:144-165 | over any run, every pass leaves such a directory if and only if none meets a shadowed label |
| `LabelSync.DistinguishedUnshadowed` | minion/network/store.go:242-251 | no label is shadowed if none is spelled like the address of a container |
| `LabelSync.SlashedLabel` | minion/network/store.go:195-202 | with a slash in a label the directory never has exactly the labels in use |
| `LabelSync.MissedExactly` | minion/network/store.go:294-306 | a label's entry cannot be made exactly if its path is occupied below an entry that stays, or a label below it comes before |
| `LabelSync.CrashExactly` | minion/network/store.go:218-227 | the pass panics exactly if a label with several hosts is one of those |
| `LabelSync.StuckCauses` | minion/network/store.go:294-306 | in any order an occupied path suffices, and nothing but that or a longer label can do it, so labels without slashes never panic |
| `LabelSync.EmptyStuck` | minion/network/store.go:274-312 | from an empty directory it depends on the order of the containers' listings alone |
| `LabelSync.BelowFirst` | minion/network/store.go:227-228 | a pass that panics on a label without a slash, because one below it was made first |
| `LabelSync.KeyTaken` | minion/network/store.go:227-228 | two passes of which the second panics on a label that spells another label's address key |
| `Acl.RuleTable.Create` | ovsdb/ovsdb.go:481-515 | the rule is added, or may be if the call fails |
| `Acl.RuleTable.Delete` | ovsdb/ovsdb.go:518-559 | all rules with the direction, priority and match go, whatever their action; a failure may leave some |
| `Acl.Matches` | minion/network/network.go:156-187 | the set of matches is exactly the forward and reverse flows of connections and their origins |
| `Acl.Rules` | minion/network/network.go:189-217 | two drop rules, and two allow rules per match, each once |
| `Acl.UpdateACLs` | minion/network/network.go:140-250 | under any failures nothing appears beyond old and wanted rules and only rules hit by a stale row can go; without failures the table is determined |
| `Acl.ExactlyIff` | minion/network/network.go:219-250 | from any table, an update leaves exactly the wanted rules if and only if none clashes with a stale row |
| `Acl.OwnNoClash` | ovsdb/ovsdb.go:518-535 | in a table written by updates no wanted rule clashes, although deletion ignores the action |
| `Acl.OwnKept` | minion/network/network.go:219-250 | under any failures such a table stays such a table, and no wanted rule is lost |
| `Acl.ActionClash` | ovsdb/ovsdb.go:518-535 | a row that differs from a wanted rule in the action takes it along |
| `Acl.Policy` | minion/network/network.go:169-217 | by priority, the wanted rules admit an IP packet exactly if a connection allows it or its reverse |
| `Acl.HistoryOwn` | minion/network/network.go:140-250 | every table of a history of updates, with any failures and from an empty table, is one written by updates |
| `Acl.Compiled` | minion/network/network.go:140-250 | so does the table left by an update without failures after any such history |
| `OpenFlow.GenerateTargetOpenFlow` | minion/network/worker.go:960-1137 | the loops give exactly the rules of the containers and labels, or nothing if a port number is missing |
| `OpenFlow.NotByContainer` | minion/network/worker.go:994-1068 | no container's rule above the default takes a packet to a label |
| `OpenFlow.Fits` | minion/network/worker.go:1091-1100 | every path number fits the bits of the register it is written to |
| `OpenFlow.OneDelivery` | minion/network/worker.go:1105-1124 | of all rules exactly one delivers a register value of a label |
| `OpenFlow.Balanced` | minion/network/worker.go:994-1125 | every IP packet from a container to a multi-host label leaves on that container's patch port with the address of the member its hash selects |
| `OpenFlow.EveryMember` | minion/network/worker.go:1105-1124 | every member is selected by some hash, and no member has two register values |
| `Supervisor.Docker.Run` | minion/docker/docker.go:139-171 | a container that exists is not replaced |
| `Supervisor.Supervisor.RunSystemOnce` | minion/supervisor/supervisor.go:168-206 | the containers and the recorded configuration move by one step of the specification |
| `Supervisor.Supervisor.UpdateMaster` | minion/supervisor/supervisor.go:254-290 | what a master's removals and starts come to, judged by `MasterFits` and `MasterRuns` |
| `Supervisor.MasterFits` | minion/supervisor/supervisor.go:254-290 | every container a master runs afterwards has the arguments for its present address and members |
| `Supervisor.MasterRuns` | minion/supervisor/supervisor.go:254-290 | a complete configuration runs exactly a master's containers, with northd exactly on the leader |
| `Supervisor.Supervisor.UpdateWorker` | minion/supervisor/supervisor.go:208-252 | what a worker's removals and starts come to, judged by `WorkerFits` and `WorkerRuns` |
| `Supervisor.WorkerFits` | minion/supervisor/supervisor.go:208-252 | every container a worker runs afterwards has the arguments for its present address and members |
| `Supervisor.WorkerRuns` | minion/supervisor/supervisor.go:208-252 | with its minion row, a complete configuration runs exactly a worker's containers, and the switch points at the present leader |
| `Supervisor.WorkerBlind` | minion/supervisor/supervisor.go:231-234 | without it, controller and switch settings stay as they were, and the other containers run |
| `Supervisor.Supervisor.RemoveAll` | minion/supervisor/supervisor.go:325-329 | no container is left |
| `Supervisor.StepUpToDate` | minion/supervisor/supervisor.go:168-290 | no step leaves a running container with arguments stale for the role, address or etcd members |
| `Supervisor.StepTarget` | minion/supervisor/supervisor.go:168-290 | a change to a complete configuration leads to exactly its containers if and only if it is a master's, the minion row is there, or the controller already ran with this leader and address |
| `Supervisor.RunExactly` | minion/supervisor/supervisor.go:158-206 | after any run, with or without the minion row at each look, a complete configuration has exactly its containers if and only if the last change arrived |
| `Supervisor.HistoryIndependence` | minion/supervisor/supervisor.go:168-290 | a configuration leads to what a new supervisor would start, whatever ran before, if and only if it is complete |
| `Supervisor.MasterLingers` | minion/supervisor/supervisor.go:254-290 | every incomplete master configuration leaves the database server of the complete one before |
| `Supervisor.WorkerLingers` | minion/supervisor/supervisor.go:208-252 | every incomplete worker configuration leaves the controller of the complete one before |
| `Supervisor.ControllerMissed` | minion/supervisor/supervisor.go:231-234 | otherwise the early return leaves the controller out or at the old leader, and the same configuration never repairs it |

## Left out

* The character level of the scanner beyond string literals, number formats, and integer
  literals too large for 64 bits: the parser works on tokens.
- Parser.SurvivesExactly: the tokens after a string that is not read back are arbitrary here, where the scanner would read particular ones; the claim holds for all of them.
* The `hmap` family, `sprintf`, `log`, and the float ranges of machine attributes.
* `=` on closures compares the identity of the captured contexts here, and their contents in
  the source.
* A division by zero, `(docker (list))` and a bare `(import)` make the source panic; here they
  are errors.
* State that an evaluation has changed before it fails: the source discards it as well.
* Upper-case letters beyond ASCII in the export rule of modules.
* Other clusters' rows in the cloud loop, and providers that fail, change machines on their
  own or report attributes late.
- CloudSync.Round: models the provider as one that answers every request and never renames a machine.
* Convergence of the container scheduler and of `updateContainers`, whose matching is not an
  equality of keys.
* Parsing of addresses in other forms than the one printed: `AddressSync` is proved for any
  spelling that reads back what it prints, and `Addresses` shows dotted quads to be one. Bit
  masks are written as division by 2^16.
* `syncLabels` and the container directory's JSON lists, and watches of the store.
- LabelSync.WriteStoreLabels: where store operations fail, which entries are missed is arbitrary; where that happens or labels have slashes, only the panic and the allocation (`AddressSync.SyncIPs`) are characterised, not the directory.
- Elector.InvStep: a write that lands after its client has given up waiting for it is not a step of the model; a late update can overwrite the key of the next leader, which then does not own the key until its next write.
- LabelSync.RunGood: passes without a panic, with addresses known for all hosts.
- TreeStore.Store.Write: trees are values, so the sharing of nested maps in the source is not modelled; a node's key is its position in the parent.
* The text of match expressions and of flows, the `log` column of rules, and logical ports.
- OpenFlow.GenerateTargetOpenFlow: the list is characterised by its elements, because the source's order depends on map iteration.
* Convergence of the installed flow table, network namespaces, routes and address
  translation.
- Supervisor.RunExactly: assumes that starting, removing and configuring containers succeeds.
* Application containers of the supervisor, cloud providers, spot prices, keys and logging.
