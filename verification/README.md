# A model of the zisk-zorch prover and its bridge

These modules model the parts of the repository whose correctness is least visible from any
one body, and prove what each part promises. Everything holds for all inputs, all sizes, all
schedules and all interleavings the code accepts, unless a line under "Left out" says otherwise.
`dafny verify dfyconfig.toml` checks the project.

**Coset algebra** (`Fields`, `Sums`, `Transforms`, `Polynomials`, `Cosets`, `Folding`, `Fri`,
`FriVerifier`, `Lev`, `EvMap`, `Deep`, `OpeningVerifier`, `ComputeQ`, `TraceCommit`). The provers
replace textbook definitions with closed forms and index arithmetic. Over any field with a root of
order 2^32 and a nonzero coset generator, orthogonality of roots of unity and uniqueness of
interpolation are derived once, and each fast form is proved equal to the simple one: folding keeps
the code, the verifier's fold is the prover's, the LEv columns open, the DEEP batch divides exactly,
the quotient splits without loss, extension and its inverse undo each other. `Fri.ChainKeepsCode`,
`FriVerifier.HonestProverAccepted` and `OpeningVerifier.HonestOpeningAccepted` follow whole runs.

**Concurrency** (`Admission`, `Gates`, `EntryLocks`, `Loading`, `LoadProve`, `LoadProveSafety`,
`LoadProveProgress`, `Residency`, `AheadAdmission`). Each lock's state is a class whose methods are the stretches run
under the lock, and a state machine takes those stretches thread by thread, with the gap between
releasing a lock and notifying modelled as a place of its own, and with spurious wakeups. `LoadProve`
puts the load map, gate, cache entries, admission queue and slot together for any number of clients
and threads; a load or an upload may fail at any point. Its runs are all finite and can only stop
with every thread done.

**The driver** (`AirPrograms`, `Replay`, `Transcript`, `Calls`, `Driver`, `DriverProve`, `AirDriver`,
`BufferNames`). Programs are uninterpreted functions with the declared input and output names, the
transcript is abstract. `Replay` is the pure schedule, and two modules write out what it does:
`Transcript` runs it on a host that records its events, gives the whole log and says which draw every
challenge and every folding step gets, then carries that over to any host; `Calls` lists, program by
program, what each is handed and where its outputs go. `Driver` and `DriverProve` are the imperative
schedule, which inserts into, reads from and removes from an environment of named buffers. The driver
never reads a name it released, and writes the replay's words.

**Schedules, layouts, codecs** (`Waves`, `Packing`, `ParRows`, `Tiles`, `Wire`, `Continuation`, `Spans`,
`HostIdle`, with `Arith` for products and quotients).

Some promises turn out to be conditional. In each case the exact condition is proved:

- The terminal FRI test rejects an honest nonzero constant when the blowup is wider than the last
  layer (`Fri.HonestFinalAccepted`, `Fri.WideBlowupRejectsConstant`); the code's comment says the
  bound collapses to the zero polynomial there, and it does.
- The LEv closed form is the inverse transform only outside the subgroup (`Lev.LevIsIntt`); inside
  it, with the inverse of zero taken as zero, the column is zero (`Lev.LevColumnZero`).
- The wire serializer asserts that a packed section is as long as its map, which fails on a
  first-stage airgroup value where the bridge writes on (`AirDriver.ReplayWords`, `AirDriver.FirstStageAsserts`,
  `Wire.PackedAtMost`).
- The bridge's tile reader does not check that the row count is a multiple of 256, as its Python
  twin does; `Tiles.ReadsWholeBuffer` says exactly when it reads the whole buffer.
- The idle report is a split exactly when no two turns overlap in idle time (`HostIdle.Report`).

Conventions: a cubic extension element is one field element, not three limbs; a Python exception or
Rust error is an error value; in `Driver` a buffer is its words and a name is structured rather than
text, which `BufferNames` justifies: no two names share a text, and lookup, insertion, removal, the prefix
sweeps and the setup rename do the same on the map keyed by text. `Law2` and `Law3` in `Fields` only give
the solver something to hang the field axioms on.

## Model

| member | source | states |
|---|---|---|
| Transforms.InttOfNtt | zisk_zorch/fri/fold.py:131-149 | the inverse transform recovers the coefficients from the values on a root-of-unity subgroup of any invertible size |
| Transforms.InttUnique | zisk_zorch/fri/fold.py:131-149 | coefficients are the inverse transform of values if and only if the values are their transform |
| Polynomials.LagrangeUnique | zisk_zorch/fri/fold.py:152-177 | whatever polynomial with no more coefficients than points takes the given values, the Lagrange form is its value everywhere |
| Folding.FoldCosetEval | zisk_zorch/fri/fold.py:92-128 | inverse transform, coset rescale and evaluation at the challenge give the value of the one polynomial the group is the evaluations of |
| Folding.FoldFormsAgree | zisk_zorch/fri/fold.py:152-177 | on every group, Lagrange interpolation on the explicit coset points equals the inverse-transform form |
| Folding.CombineDegree | zisk_zorch/fri/seam.py:130-159 | combining the n components of a polynomial divides its degree bound by n, rounding up |
| Fri.Powers | zisk_zorch/fri/fold.py:54-59 | entry k of the run of powers is the k-th power of the base |
| Fri.CosetTable | zisk_zorch/fri/fold.py:62-79 | row g of the outer-product table holds the coset points of group g |
| Fri.CosetInvIsInverse | zisk_zorch/fri/fold.py:82-89 | the power series from the two seeds gives, for each group, the inverse of that group's own nonzero coset shift |
| Fri.MemberPoint | zisk_zorch/fri/fold.py:62-79 | entry j*cur+g of a layer sits at member j of group g's coset |
| Fri.VerifyFoldIsFold | zisk_zorch/fri/fold.py:152-177 | the verifier's fold of group g equals entry g of the prover's fold, for any codeword whatever, low-degree or not |
| Fri.FoldKeepsCode | zisk_zorch/fri/fold.py:92-128 | folding the codeword of p gives the codeword, on the next layer's coset, of the beta-combination of p's components |
| Fri.MakeCodeAccepts | zisk_zorch/fri/seam.py:49-61 | construction accepts exactly the strictly decreasing schedules of log sizes in [0, 32] |
| Fri.FoldGroupLevel | zisk_zorch/fri/seam.py:75-86 | the codeword's own length picks the layer to fold |
| Fri.DegreeStep | zisk_zorch/fri/seam.py:130-159 | each fold divides the degree bound exactly, and the bound never drops below one coefficient |
| Fri.ChainKeepsCode | zisk_zorch/fri/seam.py:82-86 | for every accepted schedule and every polynomial of degree below 2^n_bits, every layer is the codeword of a polynomial whose bound was divided by every fold so far |
| Fri.CheckFinalReadsDegree | zisk_zorch/fri/seam.py:130-159 | on a codeword the terminal test passes if and only if its polynomial has degree below the bound the test computes |
| Fri.HonestFinalAccepted | zisk_zorch/fri/seam.py:130-159 | after all honest folds the terminal test passes if and only if blowup_bits <= steps[-1] or the last polynomial is zero |
| Fri.WideBlowupRejectsConstant | zisk_zorch/fri/seam.py:150-159 | the rejecting case is real: the honest constant 1 with schedule [1, 0] and a base domain of one point fails the terminal test |
| FriVerifier.CheckLink | zisk_zorch/fri/verifier.py:151-184 | one opened group folds onto its target: the member of the next leaf, or the final polynomial's entry |
| FriVerifier.FoldChainHolds | zisk_zorch/fri/verifier.py:151-184 | the nested loops accept if and only if every query links at every layer |
| FriVerifier.GroupHasInterpolant | zisk_zorch/fri/fold.py:152-177 | the values opened for a group, whatever they are, lie on a polynomial over the group's own coset points |
| FriVerifier.FoldIsInterpolant | zisk_zorch/fri/fold.py:152-177 | the verifier's fold of an opened group at beta is that polynomial's value at beta |
| FriVerifier.MerkleMeans | zisk_zorch/fri/verifier.py:151-184 | the path checks are one for every query and layer, at the position modulo the layer's leaves, against that layer's own root |
| FriVerifier.LinksMean | zisk_zorch/fri/verifier.py:151-184 | the link checks are one for every query and every layer, the last one included: the opened group's interpolant at the layer's beta is member i / 2^steps[l+2] of the next opening, for i the position modulo 2^steps[l+1], and after the last layer entry i of the final polynomial |
| FriVerifier.VerifyQueryLayers | zisk_zorch/fri/verifier.py:124-184 | raises exactly on a malformed schedule or final polynomial; otherwise accepts if and only if the terminal test passes, every opening hashes to its layer's root at the position modulo its leaves, and every opened group's interpolant at beta meets the next opening, or at the end the final polynomial |
| FriVerifier.NextMember | zisk_zorch/fri/seam.py:102-128 | a query's entry in a layer of nx*cur entries is member (position mod nx*cur) / cur of group position mod cur in the next opening |
| FriVerifier.HonestTarget | zisk_zorch/fri/verifier.py:151-184 | what layer l's fold is compared with is the next layer's own entry at the query's index |
| FriVerifier.HonestLink | zisk_zorch/fri/verifier.py:151-184 | the value an honest group folds to is the value the next honest leaf holds at that member |
| FriVerifier.HonestProverAccepted | zisk_zorch/fri/verifier.py:124-184 | for every accepted schedule at least as wide at the end as the blowup, every low-degree polynomial and all positions, honest openings satisfy every link and the terminal test |
| FriVerifier.LayerZeroLookup | zisk_zorch/opening/verifier.py:191-197 | the codeword's row sits in the layer-0 group at member row >> steps[1] |
| OpeningVerifier.AccumulateNumerator | zisk_zorch/opening/verifier.py:183-190 | the loop's numerator is the vf-power sum of all column differences, the quotient's last |
| OpeningVerifier.CheckQuery | zisk_zorch/opening/verifier.py:144-198 | off the opening point, accepts a query if and only if both rows hash to their roots and the group member times (x - xi) is the vf-power sum of all opened differences, the quotient's last |
| OpeningVerifier.QueryMeans | zisk_zorch/opening/verifier.py:169-197 | the division form of the query's test is the multiplied-out equation, with both hash checks |
| OpeningVerifier.CheckQueries | zisk_zorch/opening/verifier.py:144-198 | accepts if and only if every query does, so refuses as soon as one trace path, quotient path or equation fails |
| OpeningVerifier.RebuiltIsComposition | zisk_zorch/opening/verifier.py:183-191 | one division of the batched numerator equals the sum of the columns' own quotients |
| OpeningVerifier.HonestPolIsCodeword | zisk_zorch/opening/verifier.py:144-198 | with true evaluations the composed FRI polynomial is the codeword of a polynomial of degree below N |
| OpeningVerifier.HonestQueryPasses | zisk_zorch/opening/verifier.py:191-197 | an honest query's rebuilt value is the codeword entry found in its layer-0 group |
| OpeningVerifier.HonestOpeningAccepted | zisk_zorch/opening/verifier.py:63-118 | from the committed polynomials alone: low degree, every fold link, the terminal test and every query's DEEP lookup hold, leaving only the hash trees |
| Lev.ComputeLev | zisk_zorch/evals/lev.py:135-173 | column i is the closed form at opening i, for any openings and any size the root tower has |
| Lev.LevIsIntt | zisk_zorch/evals/lev.py:135-173 | the closed form is the inverse transform of 1, g, g^2, ... if and only if g^N is not 1 |
| Lev.LevColumnZero | zisk_zorch/evals/lev.py:135-173 | when g^N is 1 the column is all zeros, so it opens nothing |
| Lev.LevOpens | zisk_zorch/evals/lev.py:112-168 | for g^N not 1, the column dotted with every stride-th row of P's coset values is P(xi w^p), for every P of degree below N and negative p too |
| Lev.RowWindowsTile | zisk_zorch/harness/pil2.py:277-286 | for any window count the windows are non-empty, in order, and cover every row once: at most that many, all but the last of n / count rows, rounded up |
| Lev.WindowsAddUp | zisk_zorch/harness/pil2.py:288-298 | the shares of windows that tile the rows, added from the left, are the whole dot product |
| Lev.WindowedOpening | zisk_zorch/harness/pil2_prover.py:847-877 | the windowed evaluation equals the single opening over the domain, for every window count |
| EvMap.OrderIsPermutation | zisk_zorch/harness/pil2.py:363-383 | base columns first, then extension ones: an order that lists every entry exactly once |
| EvMap.OpenEvMapInOrder | zisk_zorch/harness/pil2.py:363-383 | whatever the mix of column kinds, result i is entry i's own column against its own opening point |
| Deep.AccumulateGroup | zisk_zorch/harness/pil2.py:400-412 | a group is None if and only if no entry opens there, otherwise the vf2-power sum of its entries' differences, row by row |
| Deep.DeepTwoChallenge | zisk_zorch/harness/pil2.py:385-424 | the loop's result is the explicit vf1/vf2 power sum over all openings, those without entries still counting a factor vf1; None if and only if no entry opens anywhere |
| Deep.GroupSumIs | zisk_zorch/harness/pil2.py:400-412 | a group's row is the sum over its own entries of the entry's difference times vf2 to the number of its entries that follow |
| Deep.DeepRowIs | zisk_zorch/harness/pil2.py:385-424 | a row of the batch is the sum over the openings of the group's row over (x - z), times vf1 to the number of openings that follow |
| Deep.OpeningsAgree | zisk_zorch/harness/pil2.py:385-424 | reducing the opening's exponent modulo N gives xi w^prime for negative shifts too |
| Deep.DeepDivides | zisk_zorch/harness/pil2.py:385-424 | with true evaluations each row of the power sum is the value of one polynomial |
| Deep.DeepPolyDegree | zisk_zorch/harness/pil2.py:385-424 | that polynomial has degree below N - 1: every division was exact |
| Deep.DeepIsCodeword | zisk_zorch/harness/pil2.py:385-424 | the DEEP batch over the extended coset is the codeword of one polynomial of degree below N - 1 |
| Deep.DeepWindow | zisk_zorch/harness/pil2_prover.py:879-912 | a window's batch, computed from its own rows, is that window of the whole batch |
| Deep.WindowedDeep | zisk_zorch/harness/pil2_prover.py:879-912 | the windows' batches concatenated are the whole batch, for every window count |
| ComputeQ.ComputeQ | zisk_zorch/quotient/compute_q.py:32-55 | column p holds the coset values of the input's coefficients pN to (p+1)N, for every split |
| ComputeQ.RecomposedIsTruncation | zisk_zorch/quotient/compute_q.py:3-12 | putting powers of x^N back over any sections gives the input's interpolant cut to qDeg*N coefficients |
| ComputeQ.SplitsWithoutLoss | zisk_zorch/quotient/compute_q.py:3-12 | the sections recompose to the input at every row if and only if its interpolant has degree below qDeg*N |
| ComputeQ.QuotientRecovered | zisk_zorch/quotient/compute_q.py:3-12 | for a quotient of degree below qDeg*N, the sum of x^(pN) Q_p(x) is q(x) at every row, each Q_p being q's own chunk of degree below N |
| ComputeQ.OneSectionIdentity | zisk_zorch/quotient/compute_q.py:3-12 | with one section the transform is the identity if and only if the input has degree below N |
| TraceCommit.ShiftInvPowers | zisk_zorch/commit/trace_commit.py:86-94 | entry k is the k-th power of the inverse coset shift |
| TraceCommit.ExtendIsCodeword | zisk_zorch/commit/trace_commit.py:173-186 | a column's extension is the codeword of the one polynomial of degree below N through its values |
| TraceCommit.UnextendOfExtend | zisk_zorch/commit/trace_commit.py:97-122 | unextend(extend(t)) is t for every column and every power-of-two blowup |
| TraceCommit.ExtendOfUnextend | zisk_zorch/commit/trace_commit.py:97-122 | extend(unextend(v)) is v if and only if v's coefficients at and above N vanish |
| TraceCommit.BlockCols | zisk_zorch/commit/trace_commit.py:125-129 | between one and all columns, as many as the byte budget holds and not one more |
| TraceCommit.ExtendBlocked | zisk_zorch/commit/trace_commit.py:132-170 | for every block size the blocked extension equals the unblocked one and each block advances |
| TraceCommit.RoundTrip | zisk_zorch/commit/trace_commit.py:97-186 | whole sections come back unchanged through blocked extension and unextension |
| Admission.Pending.AdmitsNow | bridge/src/lib.rs:220-236 | the accumulation loop decides the admission predicate |
| Admission.Pending.Arrive | bridge/src/lib.rs:254-269 | draws the next ticket, and enters exactly when it is its turn and there is room |
| Admission.Pending.Recheck | bridge/src/lib.rs:254-269 | a further round of the wait loop |
| Admission.Pending.TryAcquire | bridge/src/lib.rs:276-286 | counts one in exactly when the pool is below its cap, and otherwise changes nothing |
| Admission.Pending.Release | bridge/src/lib.rs:302-309 | the pass's drop removes exactly its own ticket |
| Admission.AdmitsExactly | bridge/src/lib.rs:220-236 | a non-empty client admits an instance if and only if it stays under the cap and within the budget whichever member ends up proving; an empty one any size |
| Admission.SumsStaySmall | bridge/src/lib.rs:220-236 | the sums formed never exceed the budget plus twice the largest upload |
| Admission.StepInv | bridge/src/lib.rs:254-309 | every step of every thread keeps tickets, list and bounds in agreement |
| Admission.AdmissionBoundsMemory | bridge/src/lib.rs:186-265 | in every reachable state at most cap are in, and with two or more in, all uploads but any one member's are within the budget |
| Admission.NoWakeupLost | bridge/src/lib.rs:254-309 | in every reachable state a sleeping thread that could go has a notify pending |
| Admission.TicketOrder | bridge/src/lib.rs:254-269 | whoever is in drew an earlier ticket than everyone still waiting |
| Admission.EmptyClientServesHead | bridge/src/lib.rs:220-236 | with nobody in and no notify pending the first in line is awake and its next look admits it, whatever its size |
| Gates.Gate.TryEnterLoad | bridge/src/artifact.rs:105-113 | a load enters exactly when nothing proves and no prove waits |
| Gates.Gate.ArriveProve | bridge/src/artifact.rs:116-128 | a prove enters exactly when nothing proves and no load is in flight, otherwise it is counted as waiting |
| Gates.Gate.RecheckProve | bridge/src/artifact.rs:116-128 | a further round of the prove's wait, giving back its waiting count on entry |
| Gates.Gate.Drop | bridge/src/artifact.rs:91-101 | either pass gives back exactly what it took |
| Gates.StepInv | bridge/src/artifact.rs:66-133 | the counters count the threads, a prove is alone, and no sleeper could go, after every step |
| Gates.ProveIsAlone | bridge/src/artifact.rs:66-133 | while a thread proves no other loads or proves |
| Gates.LoadsOnlyFall | bridge/src/artifact.rs:66-133 | while a prove waits no step lets another load in |
| EntryLocks.CacheEntryLock.TryTake | bridge/src/artifact.rs:354-363 | takes the path exactly when it is free |
| EntryLocks.CacheEntryLock.Release | bridge/src/artifact.rs:365-371 | frees exactly its own path |
| EntryLocks.OneHolder | bridge/src/artifact.rs:344-371 | two threads never hold the same cache entry |
| EntryLocks.NoHolders | bridge/src/artifact.rs:344-371 | when nobody holds an entry none is busy |
| Loading.Loaded.Look | bridge/src/lib.rs:946-1000 | finds the artifact, or marks the key as this thread's own to load, or leaves it to the thread that has |
| Loading.Loaded.FinishOk | bridge/src/lib.rs:981-999 | the key is no longer being loaded and its artifact is ready; nothing else moves |
| Loading.Loaded.FinishErr | bridge/src/lib.rs:981-988 | the key is no longer being loaded, and the ready artifacts stay as they were |
| Loading.OneLoader | bridge/src/lib.rs:946-1000 | a key is loaded by at most one thread at a time |
| Loading.NoLoaders | bridge/src/lib.rs:946-1000 | when nobody loads no key is marked |
| LoadProveSafety.StepInv | bridge/src/lib.rs:946-1000 | every step of any thread of the combined load and prove system keeps the invariants of the gate, the admission, the load map, the entries and the slot |
| LoadProveProgress.RunInv | bridge/src/lib.rs:1212-1261 | those invariants hold throughout every run, on any number of clients |
| LoadProveProgress.ProveIsAlone | bridge/src/lib.rs:1257-1261 | in every run, a proving thread has no load in flight and no other prove on its client, and has every program of its AIR |
| LoadProveProgress.NeverReenters | bridge/src/artifact.rs:432-447 | no proving thread ever goes back to the load gate: every ready artifact has all its programs |
| LoadProveProgress.LoadsOnlyFall | bridge/src/artifact.rs:105-128 | while a prove waits on a client no step of any thread raises its loads in flight |
| LoadProveProgress.SpuriousInv | bridge/src/artifact.rs:105-128 | a spurious wakeup of any thread keeps everything |
| LoadProveProgress.NeverStuck | bridge/src/lib.rs:1212-1261 | a reachable state in which no thread can step is one in which every thread is done, and conversely |
| LoadProveProgress.PotentialDrops | bridge/src/lib.rs:1212-1261 | every step lowers a fixed measure of the state |
| LoadProveProgress.RunsEnd | bridge/src/lib.rs:1212-1261 | every interleaving is finite, within a bound fixed at the start, and ends stuck if and only if all threads are done |
| AirPrograms.OutputsDistinct | zisk_zorch/export/stages.py:733-783 | no program declares one output name twice |
| Replay.WitnessExact | zisk_zorch/export/replay.py:111-119 | the keywords the replay passes are exactly the inputs the program declares |
| Replay.LogupExact | zisk_zorch/export/replay.py:129-136 | the same for the second stage's witness program |
| Replay.QuotientExact | zisk_zorch/export/replay.py:149-170 | the same for the quotient program |
| Replay.SectionsExact | zisk_zorch/export/replay.py:172-203 | the same for the sections the evaluations and DEEP read |
| Replay.RunValid | zisk_zorch/export/replay.py:83-224 | every value the replay reads back by name was returned by the program it calls |
| Transcript.SqueezeLogs | zisk_zorch/export/replay.py:53-55 | squeezing records one draw for each challenge, in order: the j-th gets what the transcript gives after j draws, no other challenge changes |
| Transcript.StageIdsAre | bridge/src/manifest.rs:166-168 | a stage's challenges are those of that stage, in map order |
| Transcript.AbsorbLogs | zisk_zorch/harness/pil2.py:213-220 | each stage-2 air value is absorbed once, in map order, as its own three words |
| Transcript.RunLog | zisk_zorch/export/replay.py:124-212 | the whole transcript of a run, event by event: the global challenge, the stage-2 draws, root2, the stage-2 air values, the next draws, rootq, its draws, the evaluations, theirs, then each layer's root and one draw |
| Transcript.RoundsAre | zisk_zorch/export/replay.py:205-212 | round i commits its codeword, absorbs that layer's own root, and folds at the element drawn straight after it |
| Transcript.RunRounds | zisk_zorch/export/replay.py:201-213 | the rounds start at the DEEP composition and the transcript after its challenges, and end at the codeword the final polynomial is made of |
| Transcript.CloseLog | zisk_zorch/export/replay.py:213-224 | the final polynomial is absorbed, the next draw is what the nonce is ground on, and both draw the query positions |
| Transcript.RunDraws | zisk_zorch/export/replay.py:127-187 | each challenge is drawn at its own stage's boundary, the j-th of the stage after j draws there, and no later stage touches it |
| Transcript.RunAfter | zisk_zorch/export/replay.py:83-224 | on any host, the run is the recorded one and each transcript is what the recorded events make of the host's start: what the log says holds for every sponge |
| Calls.WitnessCall | zisk_zorch/export/replay.py:106-119 | the first stage's witness program gets the instance's trace and scalars and the key's base sections, and its trace is the one committed; without the program the instance's is |
| Calls.LogupCall | zisk_zorch/export/replay.py:128-136 | the second stage's witness program gets the committed trace, the base sections, the instance's scalars and the challenges drawn so far |
| Calls.StagesAre | zisk_zorch/export/replay.py:121-147 | the commitments are of that trace and of what logup returns, whose air values replace the instance's, and the airgroup values are zero but at the manifest's index |
| Calls.QuotientCall | zisk_zorch/export/replay.py:149-170 | a quotient window gets both stages' sections, the key's extended ones, the new air values, all challenges and airgroup values and the inverse zerofier; with several windows also its own rows, from where those before it end |
| Calls.WindowsMeet | zisk_zorch/export/replay.py:166-170 | the first window starts at row 0, and each where the one before it ends |
| Calls.QuotientCommitCall | zisk_zorch/export/replay.py:171 | the quotient is committed from its windows, window k as the k-th |
| Calls.EvalsCall | zisk_zorch/export/replay.py:175-183 | an evaluation window gets all sections, the opening columns computed at the challenge named std_xi, and its first row |
| Calls.EvalsSumCall | zisk_zorch/export/replay.py:184-186 | the evaluations are the sum program's over the windows, window k as the k-th |
| Calls.DeepCall | zisk_zorch/export/replay.py:188-200 | a DEEP window gets all sections, the evaluations, the domain, xi, the challenges named std_vf1 and std_vf2 drawn after the evaluations, and its first row |
| Calls.DeepConcatCall | zisk_zorch/export/replay.py:201-203 | what is folded is the concatenation of the windows, window k as the k-th |
| Calls.NamedIs | zisk_zorch/export/replay.py:49-50 | a challenge looked up by name is the value under the id of the first that bears it |
| Calls.KeyTreesAre | zisk_zorch/export/replay.py:237-244 | the fixed tree is opened on the section and digest layers its setup program returned, under the opening program's names |
| Calls.CustomTreesAre | zisk_zorch/export/replay.py:245-257 | the same for every custom commit |
| Calls.OpenCall | zisk_zorch/export/replay.py:58-65 | query q of an opening is cut from row q of what the tree's program returns for that tree's section, layers and the positions: its leaf, then the siblings the wire keeps |
| Calls.StageTreeIs | zisk_zorch/export/replay.py:258-297 | a committed tree is opened on its own commit program's section and layers |
| Calls.FriOpened | zisk_zorch/export/replay.py:284-297 | FRI layer i is opened at the positions modulo its leaves |
| Calls.ProofIs | zisk_zorch/export/replay.py:237-312 | the proof's values, roots and polynomials are the run's, and its blocks are those of the fixed, custom, three committed and FRI trees |
| Driver.RunProgram | bridge/src/artifact.rs:583-623 | succeeds if and only if every declared input is bound, with the arguments in declared order |
| Driver.RunInto | bridge/src/artifact.rs:625-643 | the outputs are stored under their names, renamed for setup programs, everything else as it was |
| Driver.BuildFixed | bridge/src/driver.rs:211-247 | the setup programs leave every key-side buffer a prove reads, bound to what the replay computes |
| Driver.StageChallengeIds | bridge/src/manifest.rs:166-171 | the ids of a stage's challenges, in map order |
| Driver.SqueezeStage | bridge/src/driver.rs:341-346 | squeezes exactly the stage's challenges, in order, and leaves the others |
| Driver.BaseDeadAfterLogup | bridge/src/driver.rs:165-184 | the base sections that no program after logup declares |
| Driver.BasesDie | bridge/src/driver.rs:165-184 | on the exported programs that is every base section |
| Driver.LateNeverReadsBase | bridge/src/driver.rs:165-184 | no program after logup declares a base section |
| Driver.RunDevice | bridge/src/driver.rs:352-401 | commits and witnesses of stages 1 and 2 equal the replay's, and every base section is gone when nothing is kept |
| Driver.RunStages | bridge/src/driver.rs:352-419 | after two stages environment, transcript and challenges are the replay's |
| Driver.QuotientWindows | bridge/src/driver.rs:422-436 | the row windows' values are the replay's parts, for any number of windows |
| Driver.RunQuotient | bridge/src/driver.rs:419-445 | the quotient's commitment, transcript and challenges are the replay's |
| DriverProve.RunEvals | bridge/src/driver.rs:446-474 | the windowed evaluations summed are the replay's |
| DriverProve.RunDeep | bridge/src/driver.rs:475-498 | the windowed composition is the replay's codeword |
| DriverProve.RunFri | bridge/src/driver.rs:500-522 | layers, roots, codeword and transcript of every round are the replay's, whose rounds `Transcript.RoundsAre` writes out |
| DriverProve.RunClose | bridge/src/driver.rs:523-540 | final polynomial, nonce and query positions are the replay's |
| DriverProve.RunOpen | bridge/src/driver.rs:284-310 | the opened rows, truncated paths and last level are the replay's for that tree |
| DriverProve.RunFits | bridge/src/driver.rs:254-282 | every section behind the value sections has its wire size |
| DriverProve.WriteProof | bridge/src/driver.rs:543-597 | with trees released at their last reader or kept, the words written are the replay's proof |
| BufferNames.SweepTakesOneTree | bridge/src/driver.rs:157-160 | the prefix sweep takes a name if and only if it is one of that tree's own digest layers, custom 1 and custom 10 included |
| BufferNames.SpelledOnce | bridge/src/artifact.rs:583-592 | no two names an environment binds share a text, whatever the ids, rounds, layers and windows: the text is read back to its name |
| BufferNames.TextLooksUp | bridge/src/artifact.rs:583-592 | looking a name up in the text-keyed map finds exactly what the structured environment binds |
| BufferNames.TextInserts | bridge/src/artifact.rs:628-641 | storing under the text is storing under the name: no other name is overwritten |
| BufferNames.TextRemoves | bridge/src/driver.rs:157-160 | removing the text is removing the name |
| BufferNames.TextReleases | bridge/src/driver.rs:157-160 | removing the section and sweeping the prefix in the text-keyed map is releasing the tree in the structured one |
| BufferNames.RenameAgrees | bridge/src/artifact.rs:625-641 | on a setup program's outputs the prefix rename moves the layers to the tree's own prefix, and leaves the root and the section |
| AirDriver.ReplayWords | zisk_zorch/export/replay.py:226-313 | the replay returns the driver's words, of the layout's length, if and only if no airgroup value is a first-stage one; otherwise its serializer asserts |
| AirDriver.FirstStageAsserts | zisk_zorch/harness/proof_serializer.py:118-125 | the asserting case is real: on a schedule with one first-stage airgroup value the serializer stops for every transcript, key and instance, where the driver writes a whole proof |
| AirDriver.AirgroupGoesAsItIs | bridge/src/driver.rs:543-547 | without a first-stage value the proof opens with the airgroup values exactly as the prove hands them back |
| AirDriver.AirDriver.HasFixed | bridge/src/driver.rs:199-201 | whether a fixed set is resident |
| AirDriver.AirDriver.SetFixed | bridge/src/driver.rs:211-247 | leaves a resident set holding all a prove reads of the key and no instance's value |
| AirDriver.AirDriver.DropFixed | bridge/src/driver.rs:205-207 | leaves none |
| AirDriver.AirDriver.Prove | bridge/src/driver.rs:314-599 | never meets an unbound input; the words are the same whether the set is kept or released; the set stays exactly when kept; fails exactly without a set or with a short buffer, and then writes nothing |
| AirDriver.NextProveIsFresh | bridge/src/driver.rs:322-333 | after a prove that kept its set, the next prove writes what a newly set driver writes |
| Residency.SortByAge | bridge/src/lib.rs:1272-1277 | the residents in order of last use, equal ticks by key, none lost or invented |
| Residency.ChooseVictims | bridge/src/lib.rs:1272-1281 | as many victims as bring the residents, with the prove's own AIR, down to the limit, in order of age and key, each before every one that stays |
| Residency.FixedAhead.PlanFor | bridge/src/lib.rs:547-555 | a resident AIR reads nothing; otherwise a permit is taken exactly when fewer than depth are out |
| Residency.PlanIs | bridge/src/lib.rs:547-555 | a plan is to read nothing if and only if the mirror holds the AIR, and takes the next permit if and only if it does not and fewer than depth are out |
| Residency.PlansByWhatIsHeld | bridge/src/lib.rs:527-555 | in every run, while the slot is free, a plan reads nothing if and only if the AIR's driver does hold its sections |
| Residency.FixedAhead.Installed | bridge/src/lib.rs:561-564 | the permit this prove held goes back and the mirror gains the AIR |
| Residency.FixedAhead.Evicted | bridge/src/lib.rs:566-568 | the mirror loses exactly that AIR |
| Residency.RunInv | bridge/src/lib.rs:1259-1377 | mirror, slot, ages and permits agree throughout every run, success and failure alike |
| Residency.MirrorIsExact | bridge/src/lib.rs:523-569 | whenever the slot is free the mirror is exactly the AIRs whose driver holds sections, at most resident_airs of them |
| Residency.EvictsOldest | bridge/src/lib.rs:1272-1286 | every evicted AIR was used before every AIR that stays |
| Residency.PermitsReturn | bridge/src/lib.rs:523-633 | at most depth permits are out, each listed once and held by exactly one prove between its plan and its install, and none when no prove is there |
| AheadAdmission.StepInv | bridge/src/lib.rs:1193-1330 | with the queue and the prove as one machine, every step keeps both invariants and the agreement of each thread's two places |
| AheadAdmission.PermitsInsideAdmission | bridge/src/lib.rs:503-511 | in every run whoever holds a permit is admitted and listed in the queue, so no more permits are out than proves are admitted, and those at most the cap |
| AheadAdmission.DepthAtCapNeverRefuses | bridge/src/lib.rs:503-511 | in every run a depth at or above the admission's cap refuses no prove that plans, and plans as the cap itself does |
| Waves.Relax | zisk_zorch/harness/recursion.py:83-98 | one pass makes every add one deeper than the deepest slot it reads |
| Waves.Levels | zisk_zorch/harness/recursion.py:83-98 | without forward reads the relaxation settles within n passes, on each add's depth |
| Waves.SettledIsDepth | zisk_zorch/harness/recursion.py:83-98 | levels a pass does not change are the depths |
| Waves.AddWaves | zisk_zorch/harness/recursion.py:68-104 | an error exactly on a forward read; otherwise wave lv lists the adds of depth lv, each once |
| Waves.WavesReadEarlier | zisk_zorch/harness/recursion.py:68-104 | each add reads only witness cells and slots of earlier waves |
| Waves.InOrder | zisk_zorch/harness/recursion.py:155-181 | evaluation in index order keeps the witness cells and stores a * ca + b * cb modulo P of add i's operands in slot size + i |
| Waves.Settle | zisk_zorch/harness/recursion.py:155-181 | the waves in turn leave a buffer in which every slot is its add's a * ca + b * cb modulo P, an unmapped operand read as the first word, and the unmapped cell is zeroed |
| Waves.SettledEquations | zisk_zorch/harness/recursion.py:155-181 | those values solve the adds: slot size + i holds a * ca + b * cb modulo P of add i's operands, each a witness word or an earlier slot |
| Waves.CellIsWord | zisk_zorch/harness/recursion.py:155-181 | every cell fits a word, so one subtraction makes it canonical |
| Waves.WavesAgreeWithIndexOrder | zisk_zorch/harness/recursion.py:155-181 | wave by wave and index order give the same buffer modulo P, for every add list without forward reads |
| Packing.BitsAreQuotient | bridge/src/lib.rs:340-366 | the bits read at a place are (x / 2^place) mod 2^width |
| Packing.NextField | bridge/src/lib.rs:340-366 | each step reads its field, inside a word or across two, and leaves the cursor on the next bit without passing the row's end |
| Packing.UnpackRow | bridge/src/lib.rs:340-366 | column c of the row in place is the row's integer divided by 2^(bits before c), modulo 2^bits[c], modulo P |
| Packing.ReduceIs | bridge/src/lib.rs:330-336 | one conditional subtraction reduces any 64-bit word modulo P, and leaves a canonical one alone |
| Packing.FieldIs | bridge/src/lib.rs:340-366 | a packed row's field is a quotient and two remainders of the row's integer |
| Packing.RowIntDigits | bridge/src/lib.rs:340-366 | the row's integer has the row's words as its 64-bit digits, least first |
| Packing.UnpackTrace | bridge/src/lib.rs:372-380 | every column of every row is that, for any number of threads in any finishing order |
| Packing.PackField | bridge/src/lib.rs:1524-1540 | field c of a packed row is the value packed there |
| Packing.UnpackInvertsPack | bridge/src/lib.rs:340-380 | unpacking a packed row gives back every value modulo P, for all widths of 1 to 64 bits that fit the row |
| ParRows.Fill | bridge/src/lib.rs:135-165 | row r of the output is the row function's value at r, for every thread count and every order of finishing |
| Tiles.SourceInRange | bridge/src/lib.rs:1401-1417 | with whole tiles every cell reads a place in the buffer, and its row and column are recovered from the place |
| Tiles.SourceIs | bridge/src/lib.rs:1401-1417 | the place read: whole column blocks of four first, then 256-row tiles of the block's width, columns inside a tile |
| Tiles.CellOfPlace | bridge/src/lib.rs:1401-1417 | with whole tiles every place is read by some cell |
| Tiles.ReadsWholeBuffer | bridge/src/lib.rs:1401-1417 | the whole buffer is read if and only if the row count is a multiple of 256 or there is at most one column |
| Tiles.UntileInvertsTile | bridge/src/lib.rs:1577-1599 | reading back any forward tiling of a matrix gives the matrix |
| Tiles.TileInvertsUntile | bridge/src/lib.rs:1577-1599 | tiling what was read back gives the buffer |
| Tiles.TileRoundTrips | bridge/src/lib.rs:1577-1599 | tiling a matrix and reading the buffer back gives the matrix |
| Tiles.TiledToRowMajor | bridge/src/lib.rs:1401-1417 | every read is in bounds and cell (row, col) comes from its place in the buffer, for every number of threads in any finishing order |
| Tiles.UntileGpu | zisk_zorch/harness/capture.py:47-64 | the block-by-block transpose gives the same matrix as the index form |
| Wire.LastLevelWalk | zisk_zorch/harness/proof_serializer.py:108-112 | stops at the first level of at most the cap's nodes |
| Wire.LastLevel | zisk_zorch/harness/proof_serializer.py:101-115 | that level's nodes, zero-padded to exactly 4^llv digests, nothing when no level is verified, and an index error exactly when the tree has no layer there |
| Wire.WalkStopsAtTruncation | zisk_zorch/harness/proof_serializer.py:101-115 | with a last level verified, that is exactly as many levels up as the truncated paths reach |
| Wire.ValueOffsets | bridge/src/manifest.rs:173-182 | each value's offset is the summed width of those before it |
| Wire.Values3 | zisk_zorch/harness/proof_serializer.py:118-125 | the three-word expansion, with an assertion that fails exactly when the section is not as long as its map |
| Wire.TriplesAre | zisk_zorch/harness/proof_serializer.py:118-125 | word k of triple i is the k-th word of value i, or zero behind a first-stage one |
| Wire.PushValues3 | bridge/src/driver.rs:146-152 | the same expansion without the assertion |
| Wire.PackedAtMost | bridge/src/manifest.rs:184-186 | packing takes at most three words a value, and exactly three if and only if no value is a first-stage one |
| Wire.Serialize | zisk_zorch/harness/proof_serializer.py:136-171 | the parts in wire order, or the assertion's failure |
| Wire.ProofWordsOf | bridge/src/driver.rs:254-282 | the bridge's count is the layout's |
| Wire.ParseProof | zisk_zorch/harness/verify_proof_layout.py:46-83 | the cursor consumes the layout's length and keeps the airgroup, root and evaluation slices |
| Wire.SerializedLength | zisk_zorch/harness/proof_serializer.py:136-171 | what is written is as long as the bridge counts and the parser consumes, for all widths, customs and steps |
| Wire.ParsesBack | zisk_zorch/harness/verify_proof_layout.py:46-83 | the airgroup values, roots and evaluations parsed are those written |
| Wire.StartsAre | zisk_zorch/harness/proof_serializer.py:151-171 | where each section of the wire starts, and where it ends |
| Wire.SectionAt | zisk_zorch/harness/proof_serializer.py:151-171 | every stretch of every section is found in the written words at its section's start |
| Wire.ConstWhere | zisk_zorch/harness/proof_serializer.py:155-161 | the fixed tree's block is first behind the evaluations |
| Wire.CustomsWhere | zisk_zorch/harness/proof_serializer.py:162-163 | then the custom commits' blocks, in order |
| Wire.StagesWhere | zisk_zorch/harness/proof_serializer.py:164-165 | then those of the two stages and the quotient, in order |
| Wire.RootsWhere | zisk_zorch/harness/proof_serializer.py:166 | then FRI's roots, in round order |
| Wire.FriWhere | zisk_zorch/harness/proof_serializer.py:167-168 | then the rounds' blocks, in round order |
| Wire.EndWhere | zisk_zorch/harness/proof_serializer.py:169-171 | then the final polynomial, and the nonce as the last word |
| Wire.BlockWhere | zisk_zorch/harness/proof_serializer.py:128-133 | a block is the queries' rows, then their paths, then the last level |
| Continuation.CancelsIsZero | zisk_zorch/constraints/continuation.py:212-222 | with fewer updates than field elements, cancelling in the field is cancelling in the integers |
| Continuation.ClosedIsEmpty | zisk_zorch/constraints/continuation.py:123-126 | segments that cancel among themselves would need every id of the field |
| Continuation.Walk | zisk_zorch/constraints/continuation.py:123-160 | cancelling updates are walked from boot to end, every segment used once |
| Continuation.ChainIsZero | zisk_zorch/constraints/continuation.py:123-160 | a chain's updates cancel |
| Continuation.ChainIs | zisk_zorch/constraints/continuation.py:123-160 | what a chain is: boot and end states, ids in order, only the final segment marked last, each segment inheriting its predecessor's program counter and c value |
| Continuation.ChainAgrees | zisk_zorch/constraints/continuation.py:123-160 | handing the state from segment to segment is having ids 0, 1, 2, ... with only the final one marked last |
| Continuation.BusForcesOneChain | zisk_zorch/constraints/continuation.py:225-243 | the bus cancels if and only if the segments are one chain of ids 0 to k-1 from boot to end, each inheriting what its predecessor left |
| Spans.CoveredIsSize | bridge/bench/nsys_trace.py:59-60 | the covered time of a sorted non-overlapping cover is the number of instants it holds |
| Spans.Merge | bridge/bench/nsys_trace.py:48-56 | the union, as a sorted cover with a gap between any two spans |
| Spans.Intersect | bridge/bench/nsys_trace.py:63-75 | the intersection, as a cover |
| Spans.Overlap | bridge/bench/nsys_trace.py:78-81 | the number of instants both covers hold |
| Spans.Subtract | bridge/bench/nsys_trace.py:84-102 | the difference, as a cover |
| Spans.SplitsExactly | bridge/bench/nsys_trace.py:78-102 | covered(a) is what both hold plus what a alone holds |
| Spans.LegOverlapIsLower | bridge/bench/leg_phases.py:112-118 | for two phases inside one leg, the figure is the time both cover less the time neither does, or nothing: at most the time both cover, and exactly that when together they cover the leg |
| HostIdle.ShareOf | bridge/bench/host_idle.py:153-168 | one range's share is the idle in its own time, less nested ranges, split by whether its thread held the client |
| HostIdle.ShareIs | bridge/bench/host_idle.py:153-168 | instant by instant: charged as held is what is idle, in the range, in none nested in it and in its own thread's turns; as other what is idle there and in none of them |
| HostIdle.Shares | bridge/bench/host_idle.py:286-302 | every name's totals are the sums over its ranges |
| HostIdle.ChargesTheOutermost | bridge/bench/host_idle.py:286-302 | over nested ranges the charges add up to what the outermost ranges span: nothing is counted twice or lost |
| HostIdle.ChargedIsIdleInTurns | bridge/bench/host_idle.py:286-302 | when each thread's outermost ranges cover its idle, the charges are the idle inside turns, thread by thread |
| HostIdle.CountedTwice | bridge/bench/host_idle.py:338-345 | the idle inside some turn is at most the sum over threads, and equal if and only if no idle instant is inside two turns |
| HostIdle.Report | bridge/bench/host_idle.py:309-371 | idle is inside plus free; the charges are never below inside, and equal it if and only if turns do not overlap in idle time |
| HostIdle.SharesAddUp | bridge/bench/host_idle.py:309-371 | the printed shares add up to what the ranges were charged |

## Left out

- The field is abstract: that Goldilocks and its cubic extension are fields, and that the constants 7 and 7277203076849721926 are a coset generator and a root of order 2^32, is not proved. Limbs, canonical words and dtype conversions in the coset algebra are not modelled.
- `lax.ntt`, `fri_fold_k`, `ReedSolomon.extend`, `open_columns` and zorch's `verify_group_fold_chain` are not part of this model; they have their documented meaning. Merkle trees, hashing, the sponge and the transcript are abstract, so the verifiers are proved up to "the hash trees agree".
- Probabilistic soundness of FRI and LogUp, grinding difficulty and the constraint check at the opening point are not modelled.
- Lev.ComputeLev: the inverse of zero is zero, as the field's own inverse returns; nothing is claimed of a column with g^N = 1 beyond its being zero.
- ComputeQ.ComputeQ: requires qDeg*N <= Ne, outside which the slices it takes do not exist.
- TraceCommit.ExtendBlocked: each block replaces its slice of the output as `lax.dynamic_update_slice` does, on a sequence of columns rather than an array updated in place; the word-carried variant `extend_words` is left out as the same blocks on other storage.
- Deep.DeepIsCodeword: the opening points lie off the extended coset, where the divisions are defined; nothing is claimed of a batch that divides by zero.
- FriVerifier.VerifyQueryLayers: each opened row has the length the wire cuts it to; shorter rows, which fail inside array code, are not modelled.
- OpeningVerifier.HonestOpeningAccepted: one opening point and one batching challenge, as `_check_queries` has; the two-challenge form is in `Deep`.
- OpeningVerifier.CheckQueries: the multiplied-out equation is claimed of queries off the opening point; on it the code divides by zero, and the contract there is the division's own, with the inverse of zero taken as zero, beside both hash checks.
- LoadProveProgress.RunsEnd: each thread runs one job and programs are compiled one by one as `compile_all(1)` does; the worker threads of `each_parallel` for larger counts, the preload queue, and the `slot_index` glance that picks a client are left out. A spurious wakeup keeps the invariants but is not a step of the runs counted.
- Admission.AdmissionBoundsMemory: upload sizes are unbounded naturals; `SumsStaySmall` says how large the 64-bit sums become.
- Residency, in `AheadAdmission` joined to the admission queue, and the load and prove system are separate machines: the first takes the slot as its lock and leaves out the prove gate and loads, the second leaves out the fixed sections.
- Poisoned locks, panics carried across the foreign-function boundary, and cache files on disk are left out, except that a compile may fail or panic and its locks are still released.
- Driver.RunProgram: device errors, failed uploads and downloads, and manifest lookups of a missing program or spec are not modelled; the manifest is one the exporter writes, with two stages, arity 4 and steps[0] equal to the extended size. The order in which the device frees memory is not modelled, only which names the environment still binds.
- AirDriver.AirDriver.SetFixed: a failed upload, run or lookup during setup is not modelled, as for Driver.RunProgram.
- AirDriver.AirDriver.Prove: inputs arrive uploaded; the words a released section occupied are not tracked.
- Packing.UnpackTrace: a thread's chunk is filled by the row function rather than by a closure over a flat slice, and rows are sequences rather than stretches of one flat vector; `ParRows.Fill` keeps the chunking and the finishing order.
- Tiles.TiledToRowMajor: the same, and the column-by-column order inside a chunk is left out because it only affects locality.
- Wire.ParseProof: slices past the end of the buffer are cut as numpy cuts them; the skipped sections are counted, not read.
- Continuation.BusForcesOneChain: the two continuation tuples only; the register cycles on the memory bus and the range checks are left out, and the segment count is below the field's size.
- HostIdle.Report: the turns are given as covers; pairing `host/slot_wait` ends with `host/prove` ends in `turns`, and the driver-call cuts `api_idle` and `without_call`, are left out.
- Spans.LegOverlapIsLower: times are whole nanoseconds; the conversion to seconds in floating point is left out.
- Not modelled because they would add only easy members: log and CSV readers, buffer-layout totals, proof.bin varints, stdin framing, the A/B recorder, key and fixture loaders, environment variables.
