/**
 The compiled-program cache as it is stored: decoded entries in one array, two intrusive lists
 threaded through them, two-element head, tail and byte tables, and the diagnostic counters.
 Every method is proved against the policy functions of module RetentionPolicy.
 */
module RetentionCache {
  import opened RetentionLists
  import opened RetentionPolicy

  datatype Lookups = Lookups(
    requests: nat, invalid: nat, stale: nat, hits: nat, misses: nat, semantic: nat,
    negative: nat, negativeMemory: nat, negativeSemantic: nat, negativeUnsupported: nat, negativeNull: nat)

  datatype Preparations = Preparations(
    attempts: nat, nulls: nat, allocations: nat,
    unsupported: nat, memoryDenied: nat, budgetRejected: nat, transientReleases: nat)

  datatype Moves = Moves(
    admissions: nat, positiveEvictions: nat, budgetEvictions: nat, entryReleases: nat, clearReleases: nat,
    promotions: nat, demotions: nat)
  {
    /** Programs that have left the cache since the window opened. */
    function Departures(): nat { positiveEvictions + entryReleases + clearReleases }
  }

  datatype Refusal = Memory | SemanticVerdict | Unsupported | NullPreparation

  /** The diagnostic counters. Every event below is ignored while diagnostics are off. */
  datatype Diagnostics = Diagnostics(
    enabled: bool, lookups: Lookups, preparations: Preparations, moves: Moves,
    peakRetirements: nat, ownedPrograms: int, ownedBytes: int)
  {
    function OnLookups(l: Lookups): Diagnostics { if enabled then this.(lookups := l) else this }

    function OnPreparations(p: Preparations): Diagnostics { if enabled then this.(preparations := p) else this }

    function OnMoves(m: Moves): Diagnostics { if enabled then this.(moves := m) else this }

    function Requested(): Diagnostics { OnLookups(lookups.(requests := lookups.requests + 1)) }

    function Invalid(): Diagnostics { OnLookups(lookups.(invalid := lookups.invalid + 1)) }

    function Stale(): Diagnostics { OnLookups(lookups.(stale := lookups.stale + 1)) }

    function Refused(r: Refusal): Diagnostics {
      var l := lookups.(negative := lookups.negative + 1);
      OnLookups(match r
                case Memory => l.(negativeMemory := l.negativeMemory + 1)
                case SemanticVerdict => l.(negativeSemantic := l.negativeSemantic + 1)
                case Unsupported => l.(negativeUnsupported := l.negativeUnsupported + 1)
                case NullPreparation => l.(negativeNull := l.negativeNull + 1))
    }

    function SemanticRejected(): Diagnostics { OnLookups(lookups.(semantic := lookups.semantic + 1)) }

    function HitProgram(): Diagnostics { OnLookups(lookups.(hits := lookups.hits + 1)) }

    function Missed(): Diagnostics {
      OnLookups(lookups.(misses := lookups.misses + 1))
        .OnPreparations(preparations.(attempts := preparations.attempts + 1))
    }

    function CompiledNull(): Diagnostics { OnPreparations(preparations.(nulls := preparations.nulls + 1)) }

    function Compiled(): Diagnostics { OnPreparations(preparations.(allocations := preparations.allocations + 1)) }

    /** A compiled program that can never run here. */
    function Unusable(): Diagnostics {
      OnPreparations(preparations.(unsupported := preparations.unsupported + 1,
                                   transientReleases := preparations.transientReleases + 1))
    }

    /** A compiled program that this caller may not run. */
    function Denied(): Diagnostics {
      OnPreparations(preparations.(memoryDenied := preparations.memoryDenied + 1,
                                   transientReleases := preparations.transientReleases + 1))
    }

    function BudgetRejected(): Diagnostics {
      OnPreparations(preparations.(budgetRejected := preparations.budgetRejected + 1,
                                   transientReleases := preparations.transientReleases + 1))
    }

    function Admitted(): Diagnostics { OnMoves(moves.(admissions := moves.admissions + 1)) }

    function Evicted(k: nat): Diagnostics {
      OnMoves(moves.(positiveEvictions := moves.positiveEvictions + k,
                     budgetEvictions := moves.budgetEvictions + k))
    }

    function EntryReleased(k: nat): Diagnostics { OnMoves(moves.(entryReleases := moves.entryReleases + k)) }

    function ClearReleased(k: nat): Diagnostics { OnMoves(moves.(clearReleases := moves.clearReleases + k)) }

    function Shifted(demoted: nat, promoted: nat): Diagnostics {
      OnMoves(moves.(demotions := moves.demotions + demoted, promotions := moves.promotions + promoted))
    }

    /** A program of `n` bytes left, or joined, the cache's ownership. */
    function Disowned(n: nat): Diagnostics {
      if enabled then this.(ownedPrograms := ownedPrograms - 1, ownedBytes := ownedBytes - n) else this
    }

    function Owned(n: nat): Diagnostics {
      if enabled then this.(ownedPrograms := ownedPrograms + 1, ownedBytes := ownedBytes + n) else this
    }

    /** The same counters; the ownership mirror and the peak may differ. */
    predicate SameCounts(d: Diagnostics) {
      enabled == d.enabled && lookups == d.lookups && preparations == d.preparations && moves == d.moves
    }

    /** A miss: how compilation ended, and for a usable program the victims and whether it was admitted. */
    function Prepared(compiled: Program, capability: nat, allowMemory: bool, victims: nat, admitted: bool): Diagnostics {
      if compiled.Null? then Missed().CompiledNull()
      else if capability == 0 then Missed().Compiled().Unusable()
      else if !Usable(capability, allowMemory) then Missed().Compiled().Denied()
      else if admitted then Missed().Compiled().Evicted(victims).Admitted()
      else Missed().Compiled().Evicted(victims).BudgetRejected()
    }

    /** While diagnostics are on these are the counters now; while they are off none has moved since `d`. */
    ghost predicate Now(d: Diagnostics, l: Lookups, p: Preparations, m: Moves) {
      && enabled == d.enabled && lookups == (if d.enabled then l else d.lookups)
      && preparations == (if d.enabled then p else d.preparations) && moves == (if d.enabled then m else d.moves)
    }

    /** The same switch and the same mirror of what the cache owns. */
    predicate Mirrors(d: Diagnostics) {
      enabled == d.enabled && ownedPrograms == d.ownedPrograms && ownedBytes == d.ownedBytes
    }

    lemma AnswersMirror()
      ensures Requested().Mirrors(this) && Requested().Invalid().Mirrors(this) && Requested().Stale().Mirrors(this)
      ensures Requested().SemanticRejected().Mirrors(this) && Requested().HitProgram().Mirrors(this)
      ensures forall r :: Requested().Refused(r).Mirrors(this)
    {
    }

    /** What the answers that compile nothing count. */
    lemma AnswersCount()
      ensures Requested().Invalid().Now(this, lookups.(requests := lookups.requests + 1, invalid := lookups.invalid + 1),
                                        preparations, moves)
      ensures forall k: nat, d: Diagnostics :: d.SameCounts(Requested().Stale().EntryReleased(k)) ==>
        d.Now(this, lookups.(requests := lookups.requests + 1, stale := lookups.stale + 1), preparations,
              moves.(entryReleases := moves.entryReleases + k))
      ensures Requested().SemanticRejected().Now(
        this, lookups.(requests := lookups.requests + 1, semantic := lookups.semantic + 1), preparations, moves)
      ensures forall a: nat, b: nat :: Requested().HitProgram().Shifted(a, b).Now(
        this, lookups.(requests := lookups.requests + 1, hits := lookups.hits + 1), preparations,
        moves.(demotions := moves.demotions + a, promotions := moves.promotions + b))
    {
    }

    /** What the refusals remembered from an earlier lookup count. */
    lemma RefusalsCount()
      ensures var l := lookups.(requests := lookups.requests + 1, negative := lookups.negative + 1);
        && Requested().Refused(Memory).Now(this, l.(negativeMemory := l.negativeMemory + 1), preparations, moves)
        && Requested().Refused(SemanticVerdict).Now(this, l.(negativeSemantic := l.negativeSemantic + 1), preparations, moves)
        && Requested().Refused(Unsupported).Now(this, l.(negativeUnsupported := l.negativeUnsupported + 1), preparations, moves)
        && Requested().Refused(NullPreparation).Now(this, l.(negativeNull := l.negativeNull + 1), preparations, moves)
    {
    }

    /** What a lookup counts that compiles, by how that ended; `kept` programs are admitted after retiring `victims`. */
    ghost predicate Compiles(d: Diagnostics, compiled: Program, capability: nat, allowMemory: bool, victims: nat, kept: bool) {
      var l, p, m := d.lookups, d.preparations, d.moves;
      var usable := capability == 1 || (capability == 2 && allowMemory);
      Now(d, l.(requests := l.requests + 1, misses := l.misses + 1),
          p.(attempts := p.attempts + 1,
             nulls := p.nulls + (if compiled.Null? then 1 else 0),
             allocations := p.allocations + (if compiled.Null? then 0 else 1),
             unsupported := p.unsupported + (if compiled.Program? && capability == 0 then 1 else 0),
             memoryDenied := p.memoryDenied + (if capability == 2 && !allowMemory then 1 else 0),
             budgetRejected := p.budgetRejected + (if usable && !kept then 1 else 0),
             transientReleases := p.transientReleases + (if compiled.Null? || kept then 0 else 1)),
          m.(admissions := m.admissions + (if kept then 1 else 0),
             positiveEvictions := m.positiveEvictions + (if usable then victims else 0),
             budgetEvictions := m.budgetEvictions + (if usable then victims else 0)))
    }

    lemma PreparingCounts(d: Diagnostics, compiled: Program, capability: nat, allowMemory: bool, victims: nat, admitted: bool)
      requires capability <= 2 && (compiled.Null? ==> capability == 0)
      requires d.SameCounts(Requested().Prepared(compiled, capability, allowMemory, victims, admitted))
      ensures d.Compiles(this, compiled, capability, allowMemory, victims, Usable(capability, allowMemory) && admitted)
    {
    }

    lemma AdmittedAlike(d: Diagnostics, n: nat)
      requires SameCounts(d)
      ensures Admitted().Owned(n).SameCounts(d.Admitted()) && BudgetRejected().SameCounts(d.BudgetRejected())
      ensures var r, a := BudgetRejected(), Admitted().Owned(n);
        && r.enabled == a.enabled == enabled && r.ownedPrograms == ownedPrograms && r.ownedBytes == ownedBytes
        && (enabled ==> a.ownedPrograms == ownedPrograms + 1 && a.ownedBytes == ownedBytes + n)
    {
    }

    lemma PreparingKeeps()
      ensures Requested().Missed().Compiled().peakRetirements == peakRetirements
    {
    }

    lemma ClearedMore(b: Diagnostics, d: Diagnostics, k: nat)
      requires b.SameCounts(d.ClearReleased(k)) && SameCounts(b.ClearReleased(1))
      ensures SameCounts(d.ClearReleased(k + 1))
    {
    }

    lemma DisownedAlike(d: Diagnostics)
      ensures d.(ownedPrograms := ownedPrograms, ownedBytes := ownedBytes) == this ==> d.SameCounts(this)
    {
    }

    lemma SameItself()
      ensures SameCounts(this) && SameCounts(ClearReleased(0))
    {
    }

    lemma EvictedMore(b: Diagnostics, d: Diagnostics, k: nat)
      requires b.SameCounts(d.Evicted(k)) && SameCounts(b.Evicted(1))
      ensures SameCounts(d.Evicted(k + 1))
    {
    }

    lemma PeakOnly(d: Diagnostics, peak: nat)
      requires SameCounts(d)
      ensures this.(peakRetirements := peak).SameCounts(d)
    {
    }

    lemma EvictedNone()
      ensures SameCounts(Evicted(0))
    {
    }

    /** Every request, negative answer, preparation and allocation is explained by exactly one cause. */
    ghost predicate Partitioned() {
      var l, p := lookups, preparations;
      && l.requests == l.invalid + l.stale + l.hits + l.misses + l.negative + l.semantic
      && l.negative == l.negativeSemantic + l.negativeUnsupported + l.negativeNull + l.negativeMemory
      && l.misses == p.attempts
      && p.attempts == p.allocations + p.nulls
      && p.allocations == moves.admissions + p.unsupported + p.memoryDenied + p.budgetRejected
    }

    /** The books of a diagnostic window that opened on `opening` live programs. */
    ghost predicate Books(count: nat, opening: nat) {
      enabled ==>
        && Partitioned()
        && peakRetirements <= MAX_RETIREMENTS
        && moves.positiveEvictions == moves.budgetEvictions
        && count + moves.Departures() == opening + moves.admissions
    }

    /** Programs leave the cache for one counted reason, and the books still balance. */
    lemma DeparturesBooked(d: Diagnostics, k: nat, count: nat, opening: nat)
      requires d.Books(count, opening) && k <= count
      requires SameCounts(d.EntryReleased(k)) || SameCounts(d.ClearReleased(k)) || SameCounts(d.Evicted(k))
      requires d.peakRetirements <= MAX_RETIREMENTS ==> peakRetirements <= MAX_RETIREMENTS
      ensures Books(count - k, opening)
    {
    }

    /** A request answered without compiling keeps the books, whatever the reason. */
    lemma AnswerBooked(count: nat, opening: nat)
      requires Books(count, opening)
      ensures Requested().Invalid().Books(count, opening) && Requested().Stale().Books(count, opening)
      ensures Requested().SemanticRejected().Books(count, opening) && Requested().HitProgram().Books(count, opening)
      ensures forall r :: Requested().Refused(r).Books(count, opening)
    {
    }

    lemma ShiftBooked(demoted: nat, promoted: nat, count: nat, opening: nat)
      requires Books(count, opening)
      ensures Shifted(demoted, promoted).Books(count, opening)
    {
    }

    /** So does a compilation whose result is not cached. */
    lemma UnusedBooked(count: nat, opening: nat)
      requires Books(count, opening)
      ensures Requested().Missed().CompiledNull().Books(count, opening)
      ensures Requested().Missed().Compiled().Unusable().Books(count, opening)
      ensures Requested().Missed().Compiled().Denied().Books(count, opening)
    {
    }

    /** And one that made room by retiring `k` programs, whether it is then admitted or rejected. */
    lemma RoomBooked(d: Diagnostics, k: nat, n: nat, count: nat, opening: nat)
      requires d.Books(count, opening) && k <= count
      requires SameCounts(d.Requested().Missed().Compiled().Evicted(k))
      requires d.peakRetirements <= MAX_RETIREMENTS ==> peakRetirements <= MAX_RETIREMENTS
      ensures BudgetRejected().Books(count - k, opening)
      ensures Admitted().Owned(n).Books(count - k + 1, opening)
    {
    }
  }

  /** The retention record agrees with itself and with the decoded entry that carries it. */
  predicate Consistent(e: Entry) {
    var r := e.record;
    && e.queue <= PROTECTED && r.capability <= 3
    && (r.program.Program? <==> e.queue != ABSENT)
    && (r.program.Program? ==> r.valid && r.bytes == r.program.bytes && 1 <= r.capability <= 2)
    && (r.program.Null? ==> r.bytes == 0 && r.reuse == 0)
    && (r.capability == 3 ==> 1 <= r.rejection <= 3)
  }

  /** Entries stay consistent when all but one keep record and queue, and that one is. */
  lemma ConsistentBeside(es: seq<Entry>, es': seq<Entry>, i: nat)
    requires Beside(es, es', i) && (forall a :: 0 <= a < |es| ==> Consistent(es[a]))
    requires i < |es'| ==> Consistent(es'[i])
    ensures forall a :: 0 <= a < |es'| ==> Consistent(es'[a])
  {
    forall a | 0 <= a < |es'| ensures Consistent(es'[a]) {
      assert Consistent(es[a]);
    }
  }

  lemma RecountedBeside(es: seq<Entry>, es': seq<Entry>, i: nat, reuse: nat)
    requires Beside(es, es', i) && i < |es| && es'[i].record == es[i].record.(reuse := reuse)
    ensures Sizes(es') == Sizes(es) && Reuses(es') == Reuses(es)[i := reuse]
  {
  }

  /** The same records but for the reuse counters. */
  ghost predicate SameButReuse(es: seq<Entry>, es': seq<Entry>) {
    && |es'| == |es|
    && forall a {:trigger es'[a]} :: 0 <= a < |es| ==> es'[a].record.(reuse := 0) == es[a].record.(reuse := 0)
  }

  /** Some records have been released; nothing else about any record changed. */
  ghost predicate Thinned(es: seq<Entry>, es': seq<Entry>) {
    && |es'| == |es|
    && forall a {:trigger es'[a]} :: 0 <= a < |es| ==>
      es'[a].record == es[a].record || es'[a].record == es[a].record.Released()
  }

  lemma ThinnedItself(es: seq<Entry>)
    ensures Thinned(es, es)
  {
  }

  lemma ThinnedTwice(a: seq<Entry>, b: seq<Entry>, c: seq<Entry>)
    requires Thinned(a, b) && Thinned(b, c)
    ensures Thinned(a, c)
  {
    forall i | 0 <= i < |a|
      ensures c[i].record == a[i].record || c[i].record == a[i].record.Released()
    {
      assert b[i].record == a[i].record || b[i].record == a[i].record.Released();
    }
  }

  lemma ThinnedBeside(es: seq<Entry>, a: seq<Entry>, b: seq<Entry>, i: nat)
    requires Thinned(es, a) && Beside(a, b, i) && i < |a| && b[i].record == a[i].record.Released()
    ensures Thinned(es, b)
  {
  }

  lemma SameItself(es: seq<Entry>)
    ensures SameButReuse(es, es)
  {
  }

  lemma RelinkedButReuse(es: seq<Entry>, es': seq<Entry>, i: nat)
    requires SameRecords(es, es', i)
    ensures SameButReuse(es, es')
  {
  }

  lemma ForgottenButReuse(es: seq<Entry>, es': seq<Entry>, i: nat)
    requires Beside(es, es', i) && i < |es| && es'[i].record == es[i].record.(reuse := 0)
    ensures SameButReuse(es, es')
  {
  }

  lemma SameButReuseTwice(a: seq<Entry>, b: seq<Entry>, c: seq<Entry>)
    requires SameButReuse(a, b) && SameButReuse(b, c)
    ensures SameButReuse(a, c)
  {
    forall i | 0 <= i < |a| ensures c[i].record.(reuse := 0) == a[i].record.(reuse := 0) {
      assert b[i].record.(reuse := 0) == a[i].record.(reuse := 0);
    }
  }

  /** A compiled program may be cached: it can run, and within what the caller allows. */
  predicate Usable(capability: nat, allowMemory: bool) {
    capability == 1 || (capability == 2 && allowMemory)
  }

  /** The stored state as a value: the entries, the tables, the live count, and what the lists contain. */
  datatype Stored = Stored(
    es: seq<Entry>, heads: seq<nat>, tails: seq<nat>, bytes: seq<nat>, count: nat,
    probation: seq<nat>, guarded: seq<nat>)
  {
    ghost predicate Links() { TwoLists(es, heads, tails, bytes, probation, guarded) }

    ghost function Q(): Queues { Queues(probation, guarded, Sizes(es), Reuses(es)) }

    /** Lists well formed, budgets kept, records consistent, live count exact. */
    ghost predicate Whole(budget: nat) {
      && Links()
      && Sound(budget, Q())
      && (forall a :: 0 <= a < |es| ==> Consistent(es[a]))
      && count == |probation| + |guarded|
    }

    ghost predicate Holds(i: nat) {
      i < |es| && es[i].record.program.Program?
    }

    lemma HoldsRetained(budget: nat, i: nat)
      requires Whole(budget) && i < |es|
      ensures Holds(i) <==> Q().Retains(i)
      ensures es[i].queue == PROBATION <==> i in probation
      ensures es[i].queue == PROTECTED <==> i in guarded
      ensures es[i].queue <= PROTECTED
      ensures es[i].queue == PROTECTED && es[i].next == 0 ==> guarded != [] && guarded[|guarded| - 1] == i
    {
      WhereTwo(es, heads, tails, bytes, probation, guarded, i);
    }

    lemma WholeSound(budget: nat)
      requires Whole(budget)
      ensures Sound(budget, Q())
    {
    }

    lemma YoungestRefreshed(budget: nat, i: nat)
      requires Whole(budget) && guarded != [] && guarded[|guarded| - 1] == i
      ensures Refresh(Q(), i) == Q()
    {
      RefreshYoungest(Q(), i);
    }

    lemma WholeLinks(budget: nat)
      requires Whole(budget)
      ensures TwoLists(es, heads, tails, bytes, probation, guarded)
    {
    }

    /** The byte table sums to what the queues hold. */
    lemma HeldBytes(budget: nat)
      requires Whole(budget)
      ensures |bytes| == 2 && bytes[0] + bytes[1] == Q().Held() && bytes[1] == Total(Sizes(es), guarded)
    {
    }

    /** Entry `i` refiled at the young end of queue number `q`, its reuse counter set on the way. */
    lemma Refiled(budget: nat, i: nat, w: Stored, q: nat, reuse: nat)
      requires Whole(budget) && Holds(i) && w.Links() && w.count == count
      requires Beside(es, w.es, i) && q < 2 && w.es[i].queue == q + 1
      requires w.es[i].record == es[i].record.(reuse := reuse)
      requires w.probation == Without(probation, i) + (if q == 0 then [i] else [])
      requires w.guarded == Without(guarded, i) + (if q == 1 then [i] else [])
      requires Sound(budget, Queues(w.probation, w.guarded, Sizes(es), Reuses(es)[i := reuse]))
      ensures w.Whole(budget)
      ensures w.Q() == Queues(w.probation, w.guarded, Sizes(es), Reuses(es)[i := reuse])
    {
      HoldsRetained(budget, i);
      WithoutMembers(probation, i);
      WithoutMembers(guarded, i);
      assert Consistent(es[i]) && Consistent(w.es[i]);
      ConsistentBeside(es, w.es, i);
      RecountedBeside(es, w.es, i, reuse);
    }

    /** Relinking entry `i` behind the rest of the guarded queue. */
    lemma Refreshed(budget: nat, i: nat, w: Stored)
      requires Whole(budget) && i < |es| && es[i].queue == PROTECTED && w.Links() && w.count == count
      requires SameRecords(es, w.es, i) && w.es[i].queue == PROTECTED
      requires w.probation == Without(probation, i) && w.guarded == Without(guarded, i) + [i]
      ensures w.Whole(budget) && w.Q() == Refresh(Q(), i)
      ensures |bytes| == |w.bytes| == 2 && w.bytes[0] + w.bytes[1] == bytes[0] + bytes[1]
    {
      HoldsRetained(budget, i);
      RefreshSound(budget, Q(), i);
      WithoutAbsent(probation, i);
      assert Consistent(es[i]);
      assert Reuses(es)[i := es[i].record.reuse] == Reuses(es);
      hide TwoLists, Sound, Without, Consistent;
      Refiled(budget, i, w, 1, es[i].record.reuse);
      HeldBytes(budget);
      w.HeldBytes(budget);
    }

    /** The oldest guarded program, its history cleared, relinked behind probation. */
    lemma Demoted(budget: nat, i: nat, w: Stored)
      requires Whole(budget) && guarded != [] && i == guarded[0] && i < |es|
      requires w.Links() && w.count == count && Beside(es, w.es, i) && w.es[i].queue == PROBATION
      requires w.es[i].record == es[i].record.(reuse := 0)
      requires w.probation == Without(probation, i) + [i] && w.guarded == Without(guarded, i)
      ensures w.Whole(budget) && w.Q() == Demote(Q())
      ensures |bytes| == |w.bytes| == 2 && w.bytes[0] + w.bytes[1] == bytes[0] + bytes[1]
    {
      HoldsRetained(budget, i);
      DemoteSound(budget, Q());
      WithoutAbsent(probation, i);
      hide TwoLists, Sound, Consistent;
      Refiled(budget, i, w, 0, 0);
      HeldBytes(budget);
      w.HeldBytes(budget);
    }

    /** Probation entry `i` relinked behind the guarded queue. */
    lemma Promoted(budget: nat, i: nat, w: Stored)
      requires Whole(budget) && i < |es| && es[i].queue == PROBATION && FitsGuarded(budget, Q(), i)
      requires w.Links() && w.count == count && SameRecords(es, w.es, i) && w.es[i].queue == PROTECTED
      requires w.probation == Without(probation, i) && w.guarded == Without(guarded, i) + [i]
      ensures w.Whole(budget) && w.Q() == Promote(Q(), i)
      ensures |bytes| == |w.bytes| == 2 && w.bytes[0] + w.bytes[1] == bytes[0] + bytes[1]
    {
      HoldsRetained(budget, i);
      PromoteSound(budget, Q(), i);
      WithoutAbsent(guarded, i);
      assert Consistent(es[i]);
      assert Reuses(es)[i := es[i].record.reuse] == Reuses(es);
      hide TwoLists, Sound, Without, Consistent;
      Refiled(budget, i, w, 1, es[i].record.reuse);
      HeldBytes(budget);
      w.HeldBytes(budget);
    }

    /** A null head is an empty queue; otherwise the head is the oldest member. */
    lemma Heads(budget: nat)
      requires Whole(budget)
      ensures |heads| == |tails| == |bytes| == 2
      ensures if heads[0] == 0 then probation == []
              else probation != [] && probation[0] == heads[0] - 1 && Holds(heads[0] - 1)
      ensures if heads[1] == 0 then guarded == []
              else guarded != [] && guarded[0] == heads[1] - 1 && Holds(heads[1] - 1)
      ensures heads[1] != 0 ==> es[heads[1] - 1].queue == PROTECTED
    {
      HeadTwo(es, heads, tails, bytes, probation, guarded, 0);
      HeadTwo(es, heads, tails, bytes, probation, guarded, 1);
      if heads[0] != 0 { assert Consistent(es[heads[0] - 1]); }
      if heads[1] != 0 { assert Consistent(es[heads[1] - 1]); }
    }

    /** The byte comparison of the code is the question whether entry `i` fits the guarded queue. */
    lemma FitByBytes(budget: nat, i: nat)
      requires Whole(budget) && i < |es| && es[i].queue == PROBATION
      ensures |bytes| == 2 && i in probation && i !in guarded && es[i].record.bytes == Q().sizes[i]
      ensures es[i].record.bytes <= GuardedBudget(budget) ==>
        (bytes[1] > GuardedBudget(budget) - es[i].record.bytes <==> !FitsGuarded(budget, Q(), i))
      ensures bytes[1] > 0 ==> guarded != []
      ensures Q().guarded == guarded && i < |Q().sizes|
    {
      HoldsRetained(budget, i);
    }

    /** Demoting the oldest guarded program does not disturb probation entry `i`. */
    lemma DemotedBeside(budget: nat, i: nat, w: Stored)
      requires Whole(budget) && w.Whole(budget) && i < |es| == |w.es| && es[i].queue == PROBATION
      requires guarded != [] && w.Q() == Demote(Q()) && Beside(es, w.es, guarded[0])
      ensures w.es[i].queue == PROBATION && w.es[i].record == es[i].record
    {
      HoldsRetained(budget, i);
      w.HoldsRetained(budget, i);
      assert guarded[0] in guarded;
      assert i in w.Q().probation;
    }

    /** The byte table after `k` retirements. */
    lemma DroppedBytes(budget: nat, q: Queues, k: nat)
      requires Whole(budget) && Sound(budget, q) && k <= |q.Order()| && Q() == Drop(q, k)
      ensures |heads| == |bytes| == 2 && bytes[0] + bytes[1] == Beyond(q.sizes, q.Order(), k)
      ensures bytes[0] + bytes[1] > 0 ==> k < |q.Order()|
    {
      OrderDistinct(q);
      DropOrder(q, k);
      HeldBytes(budget);
      Heads(budget);
    }

    /** The program eviction takes next: the head of probation, or else of the guarded queue. */
    lemma NextVictim(budget: nat, q: Queues, k: nat)
      requires Whole(budget) && Sound(budget, q) && k < |q.Order()| && Q() == Drop(q, k)
      ensures |heads| == 2
      ensures var victim := if heads[0] != 0 then heads[0] else heads[1];
        && victim != 0 && Holds(victim - 1)
        && Release(Q(), victim - 1) == Drop(q, k + 1)
    {
      hide TwoLists, Sound, Stored.Whole, Release, Drop;
      Heads(budget);
      SoundOrder(budget, q);
      assert (probation + guarded) == Drop(q, k).Order();
      DropOrder(q, k);
      DropStep(q, k);
    }

    /** A compiled program stored in entry `i` and filed behind probation. */
    lemma Admitted(budget: nat, i: nat, p: Program, w: Stored)
      requires Whole(budget) && i < |es| && !Holds(i) && p.Program? && Q().Held() + p.bytes <= budget
      requires es[i].record.valid && 1 <= es[i].record.capability <= 2
      requires w.Links() && w.count == count
      requires Beside(es, w.es, i) && w.es[i].queue == PROBATION
      requires w.es[i].record == es[i].record.(program := p, bytes := p.bytes)
      requires w.probation == probation + [i] && w.guarded == guarded
      ensures var r := w.(count := count + 1);
        r.Whole(budget) && r.Q() == Admit(Q(), i, p.bytes)
      ensures |bytes| == |w.bytes| == 2 && w.bytes[0] + w.bytes[1] == bytes[0] + bytes[1] + p.bytes
    {
      HoldsRetained(budget, i);
      AdmitSound(budget, Q(), i, p.bytes);
      assert Consistent(es[i]);
      var r := w.(count := count + 1);
      assert Sizes(w.es) == Sizes(es)[i := p.bytes];
      assert Reuses(w.es) == Reuses(es);
      forall a | 0 <= a < |r.es| ensures Consistent(r.es[a]) {
        assert Consistent(es[a]);
      }
      HeldBytes(budget);
      r.HeldBytes(budget);
    }

    /** A new record for entry `i` with the same program keeps everything but the labels. */
    lemma Relabelled(budget: nat, i: nat, r: Record)
      requires Whole(budget) && i < |es| && Consistent(es[i].(record := r))
      requires r.program == es[i].record.program && r.bytes == es[i].record.bytes && r.reuse <= REUSE_TO_PROMOTE
      ensures var w := this.(es := es[i := es[i].(record := r)]);
        w.Whole(budget) && w.Q() == Q().(reuse := Q().reuse[i := r.reuse])
    {
      var w := this.(es := es[i := es[i].(record := r)]);
      HoldsRetained(budget, i);
      RewriteTwo(es, heads, tails, bytes, probation, guarded, i, es[i].(record := r));
      assert Sizes(w.es) == Sizes(es);
      assert Reuses(w.es) == Reuses(es)[i := r.reuse];
    }

    /** With both lists empty nothing is charged anywhere. */
    lemma NothingLeft(budget: nat)
      requires Whole(budget) && probation == [] && guarded == []
      ensures Q() == Blank(|es|) && count == 0 && heads == [0, 0] && tails == [0, 0] && bytes == [0, 0]
      ensures forall a :: 0 <= a < |es| ==> !Holds(a)
    {
      Heads(budget);
      forall a | 0 <= a < |es| ensures !Holds(a) {
        HoldsRetained(budget, a);
      }
      assert Q().sizes == Blank(|es|).sizes;
      assert Q().reuse == Blank(|es|).reuse;
    }

    /** Wiping every entry of an empty cache. */
    lemma Wiped(budget: nat)
      requires this == Stored(es, [0, 0], [0, 0], [0, 0], 0, [], [])
      requires forall a :: 0 <= a < |es| ==> es[a] == BLANK
      ensures Whole(budget) && Q() == Blank(|es|)
    {
      forall a | 0 <= a < |es| ensures Filing(es, PROBATION, [], a) && Filing(es, PROTECTED, [], a) {
      }
      assert Q().sizes == Blank(|es|).sizes;
      assert Q().reuse == Blank(|es|).reuse;
    }

    /** Releasing an entry from the queues `q` takes it out of both lists. */
    lemma Lists(q: Queues, i: nat)
      requires Q() == Release(q, i)
      ensures probation == Without(q.probation, i) && guarded == Without(q.guarded, i)
    {
    }

    lemma ConsistentAt(budget: nat, i: nat)
      requires Whole(budget) && i < |es|
      ensures Consistent(es[i])
    {
    }

    lemma MissAt(budget: nat, i: nat, n: nat)
      requires Whole(budget) && i < |es| && !Holds(i)
      ensures var r := MakeRoom(budget, Q(), n);
        && |Q().sizes| == |Q().reuse| == |r.sizes| == |r.reuse| == |es|
        && Lookup(budget, Q(), i, n) == if Admits(budget, Q(), n) then Admit(r, i, n) else r
    {
      HoldsRetained(budget, i);
      MissSteps(budget, Q(), i, n);
    }

    /** Making room leaves a vacant entry vacant, with its labels. */
    lemma StillVacant(budget: nat, i: nat, w: Stored)
      requires Whole(budget) && w.Whole(budget) && i < |es| && !Holds(i) && Thinned(es, w.es)
      ensures w.es[i].record == es[i].record && w.es[i].queue == ABSENT && !w.Holds(i)
      ensures w.Links()
    {
      assert Consistent(es[i]) && Consistent(w.es[i]);
    }

    lemma ReuseBounded(budget: nat, i: nat)
      requires Whole(budget) && i < |es|
      ensures es[i].record.reuse <= REUSE_TO_PROMOTE && Q().reuse[i] == es[i].record.reuse
    {
      assert Q().reuse[i] == es[i].record.reuse;
    }

    /** Releasing an entry that holds nothing changes nothing. */
    lemma NothingHeld(budget: nat, i: nat)
      requires Whole(budget) && i < |es| && !Holds(i)
      ensures Q() == Release(Q(), i) && es[i].record == es[i].record.Released() && Beside(es, es, i)
    {
      HoldsRetained(budget, i);
      WithoutAbsent(probation, i);
      WithoutAbsent(guarded, i);
      assert Consistent(es[i]);
    }

    lemma HeldQueue(budget: nat, i: nat)
      requires Whole(budget) && Holds(i)
      ensures es[i].queue == PROBATION || es[i].queue == PROTECTED
      ensures TwoLists(es, heads, tails, bytes, probation, guarded)
    {
      assert Consistent(es[i]);
    }

    /** Unlinking and then clearing the record of entry `i` is releasing it. */
    lemma Discharged(budget: nat, i: nat, u: Stored)
      requires Whole(budget) && Holds(i) && u.Links()
      requires SameRecords(es, u.es, i) && u.es[i] == es[i].Unfiled()
      requires u.probation == Without(probation, i) && u.guarded == Without(guarded, i)
      ensures count > 0
      ensures var r := u.(es := u.es[i := Entry(u.es[i].record.Released(), 0, 0, ABSENT)], count := count - 1);
        r.Whole(budget) && r.Q() == Release(Q(), i) && Beside(es, r.es, i)
      ensures |bytes| == 2 && |u.bytes| == 2
      ensures u.bytes[0] + u.bytes[1] + es[i].record.bytes == bytes[0] + bytes[1]
    {
      HoldsRetained(budget, i);
      var e := Entry(u.es[i].record.Released(), 0, 0, ABSENT);
      var r := u.(es := u.es[i := e], count := count - 1);
      ReleaseSound(budget, Q(), i);
      WithoutMembers(probation, i);
      WithoutMembers(guarded, i);
      RewriteTwo(u.es, u.heads, u.tails, u.bytes, u.probation, u.guarded, i, e);
      SameSizes(es, u.es, i);
      assert Consistent(es[i]);
      ConsistentBeside(es, r.es, i);
      hide Consistent, TwoLists, Sound;
      assert Sizes(r.es) == Sizes(es)[i := 0];
      assert Reuses(r.es) == Reuses(es)[i := 0];
      assert r.Q() == Release(Q(), i);
    }
  }

  class Cache {
    const budget: nat
    const entries: array<Entry>
    // Indexed by queue number, probation first.
    var heads: seq<nat>
    var tails: seq<nat>
    var bytes: seq<nat>
    var count: nat
    var diagnostics: Diagnostics

    // What the lists contain, oldest first, and how many programs were live when diagnostics began.
    ghost var probation: seq<nat>
    ghost var guarded: seq<nat>
    ghost var opening: nat

    /** The lists are well formed and the byte counters are the sums of their members. */
    ghost predicate Links()
      reads this, entries
    {
      TwoLists(entries[..], heads, tails, bytes, probation, guarded)
    }

    ghost function View(): Stored
      reads this, entries
    {
      Stored(entries[..], heads, tails, bytes, count, probation, guarded)
    }

    ghost function Q(): Queues
      reads this, entries
    {
      View().Q()
    }

    /** The structural invariant: lists, budgets, live count and the diagnostic mirror of them. */
    ghost predicate Core()
      reads this, entries
    {
      && 0 < budget && entries.Length <= 0xFFFF
      && View().Whole(budget)
      && (diagnostics.enabled ==> diagnostics.ownedPrograms == count && diagnostics.ownedBytes == bytes[0] + bytes[1])
    }

    /** What holds between operations: the structure, and the books of the diagnostic window. */
    ghost predicate Valid()
      reads this, entries
    {
      && Core()
      && diagnostics.Books(count, opening)
    }

    /** An empty cache over `n` decoded entries; their indices fit the 16-bit links. */
    constructor (budget: nat, n: nat)
      requires 0 < budget && n <= 0xFFFF
      ensures Valid() && fresh(entries)
      ensures this.budget == budget && entries.Length == n && count == 0
      ensures Q() == Blank(n) && !diagnostics.enabled
    {
      this.budget := budget;
      entries := new Entry[n](_ => BLANK);
      heads, tails, bytes, count := [0, 0], [0, 0], [0, 0], 0;
      diagnostics := Diagnostics(false, Lookups(0, 0, 0, 0, 0, 0, 0, 0, 0, 0, 0), Preparations(0, 0, 0, 0, 0, 0, 0),
                                 Moves(0, 0, 0, 0, 0, 0, 0), 0, 0, 0);
      probation, guarded, opening := [], [], 0;
      new;
      hide Stored.Whole, Stored.Q;
      View().Wiped(budget);
    }

    /** Unlink entry `i` from its queue. */
    method Unlink(i: nat)
      requires Links() && i < entries.Length
      requires entries[i].queue == PROBATION || entries[i].queue == PROTECTED
      modifies this`heads, this`tails, this`bytes, this`probation, this`guarded, entries
      ensures Links()
      ensures probation == Without(old(probation), i) && guarded == Without(old(guarded), i)
      ensures entries[i] == old(entries[i]).Unfiled() && SameRecords(old(entries[..]), entries[..], i)
    {
      hide TwoLists, Without, SameRecords;
      TablesTwo(entries[..], heads, tails, bytes, probation, guarded);
      var r := entries[i];
      var queue := r.queue - 1;
      ghost var es := entries[..];
      UnlinkTwo(es, heads, tails, bytes, probation, guarded, i);
      SplicedRecords(es, i);
      if r.previous != 0 {
        entries[r.previous - 1] := entries[r.previous - 1].(next := r.next);
      } else {
        heads := heads[queue := r.next];
      }
      ghost var es1 := if r.previous != 0 then es[r.previous - 1 := es[r.previous - 1].(next := r.next)] else es;
      assert entries[..] == es1;
      if r.next != 0 {
        entries[r.next - 1] := entries[r.next - 1].(previous := r.previous);
      } else {
        tails := tails[queue := r.previous];
      }
      ghost var es2 := if r.next != 0 then es1[r.next - 1 := es1[r.next - 1].(previous := r.previous)] else es1;
      assert entries[..] == es2;
      bytes := bytes[queue := bytes[queue] - r.record.bytes];
      entries[i] := entries[i].(queue := ABSENT, previous := 0, next := 0);
      assert entries[..] == es2[i := es2[i].Unfiled()];
      probation, guarded := Without(probation, i), Without(guarded, i);
      assert entries[..] == Spliced(es, i);
    }

    /** File entry `i` at the young end of queue number `queue`. */
    method Append(i: nat, queue: nat)
      requires Links() && i < entries.Length && entries[i].queue == ABSENT && queue < 2
      modifies this`heads, this`tails, this`bytes, this`probation, this`guarded, entries
      ensures Links()
      ensures probation == if queue == 0 then old(probation) + [i] else old(probation)
      ensures guarded == if queue == 1 then old(guarded) + [i] else old(guarded)
      ensures entries[i].queue == queue + 1 && SameRecords(old(entries[..]), entries[..], i)
    {
      hide TwoLists, SameRecords, Filed;
      TablesTwo(entries[..], heads, tails, bytes, probation, guarded);
      var index := i + 1;
      var tail := tails[queue];
      ghost var es := entries[..];
      AppendTwo(es, heads, tails, bytes, probation, guarded, i, queue);
      FiledRecords(es, i, tail, queue + 1);
      entries[i] := entries[i].(previous := tail, next := 0, queue := queue + 1);
      if tail != 0 {
        entries[tail - 1] := entries[tail - 1].(next := index);
      } else {
        heads := heads[queue := index];
      }
      tails := tails[queue := index];
      bytes := bytes[queue := bytes[queue] + entries[i].record.bytes];
      if queue == 0 {
        probation := probation + [i];
      } else {
        guarded := guarded + [i];
      }
      FiledSteps(es, i, tail, queue + 1);
      assert entries[..] == Filed(es, i, tail, queue + 1);
    }

    /** End the cache's ownership of the program of entry `i`, if it has one. */
    method Discharge(i: nat)
      requires Core() && i < entries.Length
      modifies this, entries
      ensures Core() && opening == old(opening)
      ensures Q() == Release(old(Q()), i)
      ensures Beside(old(entries[..]), entries[..], i)
      ensures entries[i].record == old(entries[i].record).Released()
      ensures !old(View().Holds(i)) ==> diagnostics == old(diagnostics) && count == old(count)
      ensures old(View().Holds(i)) ==>
        count == old(count) - 1 && diagnostics == old(diagnostics).Disowned(old(entries[i]).record.bytes)
    {
      hide TwoLists, Stored.Whole, Stored.Q, Release, Beside, SameRecords;
      var r := entries[i];
      ghost var v := View();
      if r.record.program.Null? {
        v.NothingHeld(budget, i);
        return;
      }
      v.HeldQueue(budget, i);
      diagnostics := diagnostics.Disowned(r.record.bytes);
      Unlink(i);
      ghost var u := View();
      v.Discharged(budget, i, u);
      count := count - 1;
      entries[i] := Entry(entries[i].record.Released(), 0, 0, ABSENT);
      assert View() == u.(es := u.es[i := entries[i]], count := count);
    }

    /** Move guarded entry `i` to the young end of its own queue. */
    method Refresh(i: nat)
      requires Core() && i < entries.Length && entries[i].queue == PROTECTED
      modifies this`heads, this`tails, this`bytes, this`probation, this`guarded, entries
      ensures Core() && Q() == RetentionPolicy.Refresh(old(Q()), i)
      ensures SameRecords(old(entries[..]), entries[..], i)
    {
      ghost var v := View();
      hide TwoLists, Without, SameRecords, Stored.Whole, Stored.Q, RetentionPolicy.Refresh;
      v.WholeLinks(budget);
      Unlink(i);
      ghost var es := entries[..];
      Append(i, 1);
      SameTwice(v.es, es, entries[..], i);
      v.Refreshed(budget, i, View());
    }

    /** Move probation entry `i` to the guarded queue, which has room for it. */
    method Promote(i: nat)
      requires Core() && i < entries.Length && entries[i].queue == PROBATION && FitsGuarded(budget, Q(), i)
      modifies this`heads, this`tails, this`bytes, this`probation, this`guarded, entries
      ensures Core() && Q() == RetentionPolicy.Promote(old(Q()), i)
      ensures SameRecords(old(entries[..]), entries[..], i)
    {
      ghost var v := View();
      hide TwoLists, Without, SameRecords, Stored.Whole, Stored.Q, FitsGuarded, RetentionPolicy.Promote;
      v.WholeLinks(budget);
      Unlink(i);
      ghost var es := entries[..];
      Append(i, 1);
      SameTwice(v.es, es, entries[..], i);
      v.Promoted(budget, i, View());
    }

    /** Clear the reuse counter of entry `i`. */
    method ForgetReuse(i: nat)
      requires Links() && i < entries.Length
      modifies entries
      ensures Links()
      ensures entries[i].record == old(entries[i]).record.(reuse := 0) && entries[i].queue == old(entries[i]).queue
      ensures Beside(old(entries[..]), entries[..], i)
    {
      hide TwoLists;
      ghost var es := entries[..];
      var e := entries[i].(record := entries[i].record.(reuse := 0));
      RewriteTwo(es, heads, tails, bytes, probation, guarded, i, e);
      entries[i] := e;
      assert entries[..] == es[i := e];
    }

    /** Move the oldest guarded entry to probation and forget its history. */
    method DemoteOldest()
      requires Core() && guarded != []
      modifies this`heads, this`tails, this`bytes, this`probation, this`guarded, entries
      ensures Core() && Q() == Demote(old(Q()))
      ensures old(guarded)[0] < entries.Length
      ensures Beside(old(entries[..]), entries[..], old(guarded)[0])
      ensures entries[old(guarded)[0]].record == old(entries[guarded[0]].record).(reuse := 0)
    {
      ghost var v := View();
      v.Heads(budget);
      hide TwoLists, Without, Stored.Whole, Stored.Q, Demote;
      v.WholeLinks(budget);
      var oldest := heads[1] - 1;
      Unlink(oldest);
      ForgetReuse(oldest);
      Append(oldest, 0);
      v.Demoted(budget, oldest, View());
    }

    /** A cached hit on entry `i`. */
    method RecordReuse(i: nat)
      requires Core() && View().Holds(i)
      modifies this, entries
      ensures Core() && Q() == Touch(budget, old(Q()), i)
      ensures count == old(count) && opening == old(opening)
      ensures SameButReuse(old(entries[..]), entries[..])
      ensures diagnostics == old(diagnostics).Shifted(
        if Demotes(budget, old(Q()), i) then 1 else 0, if Promotes(budget, old(Q()), i) then 1 else 0)
    {
      hide TwoLists, Sound, Stored.Whole, Mark, Settle, Settles, FitsGuarded, RetentionPolicy.Refresh,
           SameButReuse, SameRecords;
      ghost var v := View();
      v.HoldsRetained(budget, i);
      SameItself(v.es);
      if entries[i].queue == PROTECTED {
        if entries[i].next == 0 {
          // A selection and execution pair: no writes.
          v.WholeSound(budget);
          v.YoungestRefreshed(budget, i);
          return;
        }
        Refresh(i);
        RelinkedButReuse(v.es, entries[..], i);
        return;
      }
      TouchSteps(budget, v.Q(), i);
      MarkReuse(i);
      ghost var es := entries[..];
      if entries[i].record.reuse < REUSE_TO_PROMOTE || entries[i].record.bytes > GuardedBudget(budget) {
        return;
      }
      MakeGuardedRoom(i);
      SameButReuseTwice(v.es, es, entries[..]);
    }

    /** Demote at most one guarded program for entry `i`, and promote it if that was enough. */
    method MakeGuardedRoom(i: nat)
      requires Core() && i < entries.Length && entries[i].queue == PROBATION
      requires entries[i].record.bytes <= GuardedBudget(budget)
      modifies this, entries
      ensures Core() && Q() == Settle(budget, old(Q()), i)
      ensures count == old(count) && opening == old(opening)
      ensures SameButReuse(old(entries[..]), entries[..])
      ensures diagnostics == old(diagnostics).Shifted(
        if !FitsGuarded(budget, old(Q()), i) then 1 else 0, if Settles(budget, old(Q()), i) then 1 else 0)
    {
      hide TwoLists, Sound, Stored.Whole, Stored.Q, RetentionPolicy.Promote, FitsGuarded, Settle, Settles, Crowded,
           SameRecords, SameButReuse;
      ghost var v := View();
      v.FitByBytes(budget, i);
      SettleSteps(budget, v.Q(), i);
      DemoteFor(i);
      ghost var w := View();
      w.FitByBytes(budget, i);
      if bytes[1] > GuardedBudget(budget) - entries[i].record.bytes {
        return;
      }
      Promote(i);
      RelinkedButReuse(w.es, entries[..], i);
      SameButReuseTwice(v.es, w.es, entries[..]);
      diagnostics := diagnostics.Shifted(0, 1);
    }

    /** Demote the oldest guarded program if entry `i` does not fit beside the guarded ones. */
    method DemoteFor(i: nat)
      requires Core() && i < entries.Length && entries[i].queue == PROBATION
      requires entries[i].record.bytes <= GuardedBudget(budget)
      modifies this, entries
      ensures Core() && Q() == Crowded(budget, old(Q()), i)
      ensures entries[i].queue == PROBATION && entries[i].record == old(entries[i]).record
      ensures count == old(count) && opening == old(opening)
      ensures SameButReuse(old(entries[..]), entries[..])
      ensures diagnostics == old(diagnostics).Shifted(if !FitsGuarded(budget, old(Q()), i) then 1 else 0, 0)
    {
      hide TwoLists, Sound, Stored.Whole, Stored.Q, Demote, FitsGuarded, Beside, SameButReuse;
      ghost var v := View();
      v.FitByBytes(budget, i);
      if bytes[1] > GuardedBudget(budget) - entries[i].record.bytes {
        DemoteOldest();
        v.DemotedBeside(budget, i, View());
        ForgottenButReuse(v.es, entries[..], v.guarded[0]);
        diagnostics := diagnostics.Shifted(1, 0);
      } else {
        SameItself(v.es);
      }
    }

    /** One more hit on the counter of probation entry `i`. */
    method MarkReuse(i: nat)
      requires Core() && i < entries.Length && entries[i].queue == PROBATION
      modifies entries
      ensures Core() && Q() == Mark(old(Q()), i)
      ensures entries[i].queue == PROBATION && entries[i].record.bytes == old(entries[i]).record.bytes
      ensures SameButReuse(old(entries[..]), entries[..])
      ensures View() == old(View()).(es := entries[..])
    {
      ghost var v := View();
      if entries[i].record.reuse < REUSE_TO_PROMOTE {
        ghost var r := entries[i].record.(reuse := entries[i].record.reuse + 1);
        assert Consistent(entries[i]);
        v.Relabelled(budget, i, r);
        hide TwoLists, Sound;
        entries[i] := entries[i].(record := entries[i].record.(reuse := entries[i].record.reuse + 1));
        assert entries[..] == v.es[i := v.es[i].(record := r)];
      } else {
        assert Mark(v.Q(), i) == v.Q();
      }
    }

    /** Retire the program that eviction takes next, the `k`-th after the queues `q`. */
    method EvictOldest(ghost q: Queues, ghost k: nat)
      requires Core() && Sound(budget, q) && k < |q.Order()| && Q() == Drop(q, k)
      modifies this, entries
      ensures Core() && Q() == Drop(q, k + 1)
      ensures count == old(count) - 1 && opening == old(opening)
      ensures diagnostics.SameCounts(old(diagnostics).Evicted(1))
      ensures diagnostics.peakRetirements == old(diagnostics).peakRetirements
      ensures Thinned(old(entries[..]), entries[..])
    {
      hide TwoLists, Sound, Stored.Whole, Stored.Q, Drop, Release, Thinned, Beside;
      ghost var v := View();
      v.NextVictim(budget, q, k);
      ThinnedItself(v.es);
      var victim := if heads[0] != 0 then heads[0] else heads[1];
      diagnostics := diagnostics.Evicted(1);
      Discharge(victim - 1);
      ThinnedBeside(v.es, v.es, entries[..], victim - 1);
    }

    /** Retire the oldest programs until `n` more bytes fit, at most 64 of them. */
    method MakeRoom(n: nat) returns (ok: bool)
      requires Core()
      modifies this, entries
      ensures Core() && Q() == RetentionPolicy.MakeRoom(budget, old(Q()), n)
      ensures ok == Admits(budget, old(Q()), n)
      ensures ok ==> Q().Held() + n <= budget
      ensures var k := Retirements(budget, old(Q()), n);
        && count == old(count) - k
        && diagnostics.SameCounts(old(diagnostics).Evicted(k))
        && (old(diagnostics).peakRetirements <= MAX_RETIREMENTS ==> diagnostics.peakRetirements <= MAX_RETIREMENTS)
      ensures opening == old(opening) && Thinned(old(entries[..]), entries[..])
    {
      hide TwoLists, Stored.Whole, Stored.Q, Drop, Beyond, Thinned, Diagnostics.SameCounts, Diagnostics.Evicted;
      ghost var v, d := View(), diagnostics;
      d.EvictedNone();
      ghost var q := v.Q();
      v.WholeSound(budget);
      hide Sound;
      DropNone(q);
      ThinnedItself(v.es);
      if n > budget {
        return false;
      }
      v.DroppedBytes(budget, q, 0);
      var retired := 0;
      while bytes[0] + bytes[1] > budget - n && retired < MAX_RETIREMENTS
        invariant retired <= MAX_RETIREMENTS && retired <= |q.Order()|
        invariant Core() && Q() == Drop(q, retired)
        invariant |bytes| == 2 && bytes[0] + bytes[1] == Beyond(q.sizes, q.Order(), retired)
        invariant forall j :: 0 <= j < retired ==> Beyond(q.sizes, q.Order(), j) > budget - n
        invariant count == v.count - retired && opening == old(opening)
        invariant Thinned(v.es, entries[..])
        invariant diagnostics.SameCounts(d.Evicted(retired))
        invariant diagnostics.peakRetirements == old(diagnostics).peakRetirements
        decreases MAX_RETIREMENTS - retired
      {
        ghost var w, b := View(), diagnostics;
        w.DroppedBytes(budget, q, retired);
        EvictOldest(q, retired);
        diagnostics.EvictedMore(b, d, retired);
        ThinnedTwice(v.es, w.es, entries[..]);
        retired := retired + 1;
        View().DroppedBytes(budget, q, retired);
      }
      VictimsUnique(q.sizes, q.Order(), budget - n, MAX_RETIREMENTS, retired);
      View().HeldBytes(budget);
      NotePeak(retired, d.Evicted(retired));
      return bytes[0] + bytes[1] <= budget - n;
    }

    /** Remember the most programs one admission has retired. */
    method NotePeak(retired: nat, ghost d: Diagnostics)
      requires Core() && retired <= MAX_RETIREMENTS && diagnostics.SameCounts(d)
      modifies this`diagnostics
      ensures Core() && View() == old(View()) && diagnostics.SameCounts(d)
      ensures diagnostics.peakRetirements == old(diagnostics).peakRetirements || diagnostics.peakRetirements <= MAX_RETIREMENTS
      ensures diagnostics.peakRetirements ==
        if old(diagnostics).enabled && retired > old(diagnostics).peakRetirements then retired
        else old(diagnostics).peakRetirements
    {
      hide Stored.Whole, Diagnostics.SameCounts;
      if diagnostics.enabled && retired > diagnostics.peakRetirements {
        diagnostics.PeakOnly(d, retired);
        diagnostics := diagnostics.(peakRetirements := retired);
      }
    }

    /** Give entry `i` a new record around the same program. */
    method Label(i: nat, r: Record)
      requires Core() && i < entries.Length && Consistent(entries[i].(record := r))
      requires r == entries[i].record.(valid := r.valid, capability := r.capability, rejection := r.rejection)
      modifies entries
      ensures Core() && View() == old(View()).(es := old(entries[..])[i := old(entries[i]).(record := r)])
      ensures Q() == old(Q())
    {
      hide TwoLists, Sound, Stored.Whole;
      ghost var v := View();
      v.ReuseBounded(budget, i);
      v.Relabelled(budget, i, r);
      assert v.Q().reuse[i := r.reuse] == v.Q().reuse;
      entries[i] := entries[i].(record := r);
      assert entries[..] == v.es[i := v.es[i].(record := r)];
    }

    /** Drop whatever entry `i` has, program and verdict, because its decoded block goes away. */
    method Forget(i: nat)
      requires Core() && i < entries.Length
      modifies this, entries
      ensures Core() && Q() == Release(old(Q()), i) && opening == old(opening)
      ensures entries[i].record == Record(old(entries[i]).record.valid, 0, 0, Null, 0, 0)
      ensures Beside(old(entries[..]), entries[..], i)
      ensures var k := if old(View().Holds(i)) then 1 else 0;
        && count == old(count) - k
        && diagnostics.SameCounts(old(diagnostics).EntryReleased(k))
        && diagnostics.peakRetirements == old(diagnostics).peakRetirements
    {
      hide TwoLists, Sound, Stored.Whole, Stored.Q, Release;
      ghost var v := View();
      if entries[i].record.program.Program? {
        diagnostics := diagnostics.EntryReleased(1);
      }
      Discharge(i);
      ghost var w := View();
      w.ConsistentAt(budget, i);
      v.ConsistentAt(budget, i);
      Label(i, entries[i].record.(capability := 0, rejection := 0));
    }

    /** Invalidation of a decoded entry. */
    method Invalidate(i: nat)
      requires Valid() && i < entries.Length
      modifies this, entries
      ensures Valid() && opening == old(opening)
      ensures !entries[i].record.valid
      ensures Q() == if old(entries[i]).record.valid then Release(old(Q()), i) else old(Q())
      ensures entries[i].record == if old(entries[i]).record.valid then Record(false, 0, 0, Null, 0, 0)
                                   else old(entries[i]).record.(valid := false)
      ensures diagnostics.SameCounts(old(diagnostics).EntryReleased(
                if old(entries[i]).record.valid && old(entries[i]).record.program.Program? then 1 else 0))
      ensures Beside(old(entries[..]), entries[..], i)
    {
      if !entries[i].record.valid {
        return;
      }
      hide TwoLists, Sound, Stored.Whole, Stored.Q, Release, Diagnostics.Books;
      ghost var d, c := diagnostics, count;
      Forget(i);
      diagnostics.DeparturesBooked(d, c - count, c, opening);
      Label(i, entries[i].record.(valid := false));
    }

    /** A freshly decoded block takes entry `i`, replacing what was there. */
    method Decode(i: nat)
      requires Valid() && i < entries.Length
      modifies this, entries
      ensures Valid() && opening == old(opening)
      ensures entries[i].record.valid
      ensures Q() == if old(entries[i]).record.valid then Release(old(Q()), i) else old(Q())
      ensures entries[i].record == if old(entries[i]).record.valid then Record(true, 0, 0, Null, 0, 0)
                                   else old(entries[i]).record.(valid := true)
      ensures diagnostics.SameCounts(old(diagnostics).EntryReleased(
                if old(entries[i]).record.valid && old(entries[i]).record.program.Program? then 1 else 0))
      ensures Beside(old(entries[..]), entries[..], i)
    {
      hide TwoLists, Sound, Stored.Whole, Stored.Q, Release, Diagnostics.Books;
      if entries[i].record.valid {
        ghost var d, c := diagnostics, count;
        Forget(i);
        diagnostics.DeparturesBooked(d, c - count, c, opening);
      }
      View().ConsistentAt(budget, i);
      Label(i, entries[i].record.(valid := true));
    }

    /** Release the oldest program of a queue, as part of a clear. */
    method ClearOldest(queue: nat)
      requires Valid() && queue < 2 && |heads| == 2 && heads[queue] != 0
      modifies this, entries
      ensures Valid() && opening == old(opening) && old(count) > 0 && count == old(count) - 1
      ensures diagnostics.SameCounts(old(diagnostics).ClearReleased(1))
      ensures queue == 1 && old(probation) == [] ==> probation == []
    {
      hide TwoLists, Sound, Stored.Whole, Release, Diagnostics.Books, Diagnostics.SameCounts;
      ghost var d, c := diagnostics, count;
      var i := heads[queue] - 1;
      View().Heads(budget);
      diagnostics := diagnostics.ClearReleased(1);
      ghost var q := Q();
      Discharge(i);
      View().Lists(q, i);
      d.ClearReleased(1).DisownedAlike(diagnostics);
      diagnostics.DeparturesBooked(d, 1, c, opening);
    }

    /** Release every program, probation first. */
    method ClearPrograms()
      requires Valid()
      modifies this, entries
      ensures Valid() && opening == old(opening)
      ensures Q() == Blank(entries.Length) && count == 0
      ensures forall a :: 0 <= a < entries.Length ==> entries[a].record.program.Null?
      ensures diagnostics.SameCounts(old(diagnostics).ClearReleased(old(count)))
    {
      hide TwoLists, Sound, Stored.Whole, Release, Diagnostics.Books, Diagnostics.SameCounts;
      ghost var d0, c0 := diagnostics, count;
      d0.SameItself();
      for queue := 0 to 2
        invariant Valid() && opening == old(opening)
        invariant count <= c0 && diagnostics.SameCounts(d0.ClearReleased(c0 - count))
        invariant queue > 0 ==> probation == []
        invariant queue > 1 ==> guarded == []
      {
        View().Heads(budget);
        while heads[queue] != 0
          invariant Valid() && opening == old(opening) && |heads| == 2
          invariant count <= c0 && diagnostics.SameCounts(d0.ClearReleased(c0 - count))
          invariant queue == 1 ==> probation == []
          decreases count
        {
          ghost var d, c := diagnostics, count;
          ClearOldest(queue);
          diagnostics.ClearedMore(d, d0, c0 - c);
          View().Heads(budget);
        }
        View().Heads(budget);
      }
      View().NothingLeft(budget);
      forall a | 0 <= a < entries.Length ensures entries[a].record.program.Null? {
        assert !View().Holds(a);
      }
    }

    /** Clear the whole cache: release the programs, then wipe every decoded entry. */
    method Clear()
      requires Valid()
      modifies this, entries
      ensures Valid() && opening == old(opening)
      ensures Q() == Blank(entries.Length) && count == 0
      ensures forall a :: 0 <= a < entries.Length ==> entries[a] == BLANK
      ensures diagnostics.SameCounts(old(diagnostics).ClearReleased(old(count)))
    {
      ClearPrograms();
      hide TwoLists, Sound, Stored.Whole, Stored.Q, Diagnostics.Books;
      View().NothingLeft(budget);
      forall a | 0 <= a < entries.Length {
        entries[a] := BLANK;
      }
      View().Wiped(budget);
    }

    /** Open a diagnostic window: all counters zero, the programs already owned carried over. */
    method Begin(enabled: bool)
      requires Valid()
      modifies this`diagnostics, this`opening
      ensures Valid() && opening == count
      ensures diagnostics == Diagnostics(enabled, Lookups(0, 0, 0, 0, 0, 0, 0, 0, 0, 0, 0), Preparations(0, 0, 0, 0, 0, 0, 0),
                                 Moves(0, 0, 0, 0, 0, 0, 0), 0, count, bytes[0] + bytes[1])
    {
      diagnostics := Diagnostics(enabled, Lookups(0, 0, 0, 0, 0, 0, 0, 0, 0, 0, 0), Preparations(0, 0, 0, 0, 0, 0, 0),
                                 Moves(0, 0, 0, 0, 0, 0, 0), 0, count, bytes[0] + bytes[1]);
      opening := count;
    }

    /**
     Look up the program of entry `i`, compiling and admitting one on a miss. What compilation would
     produce (`compiled`, with its `capability`: 0 unsupported, 1 registers, 2 memory), whether the
     block is still current, and whether it has semantic candidates, are the caller's.
     */
    method Program(i: nat, current: bool, instructions: nat, semantic: bool, allowMemory: bool,
                   compiled: Program, capability: nat) returns (p: Program)
      requires Valid()
      requires capability <= 2 && (compiled.Null? ==> capability == 0)
      modifies this, entries
      ensures Valid() && opening == old(opening)
      // Whatever is answered, the entry retains it, and it may run for this caller.
      ensures p != Null ==>
        && i < entries.Length && entries[i].record.valid && entries[i].record.program == p
        && (entries[i].record.capability == 1 || (entries[i].record.capability == 2 && allowMemory))
      // Nothing decoded there.
      ensures !(i < entries.Length && old(entries[i]).record.valid && instructions > 0) ==>
        var l := old(diagnostics).lookups;
        && p == Null && Q() == old(Q()) && entries[..] == old(entries[..])
        && diagnostics.Now(old(diagnostics), l.(requests := l.requests + 1, invalid := l.invalid + 1),
                           old(diagnostics).preparations, old(diagnostics).moves)
      // The code under it has changed: the entry loses its program and its verdict.
      ensures i < entries.Length && old(entries[i]).record.valid && instructions > 0 && !current ==>
        var l, m := old(diagnostics).lookups, old(diagnostics).moves;
        && p == Null && Q() == Release(old(Q()), i) && entries[i].record == Record(true, 0, 0, Null, 0, 0)
        && diagnostics.Now(old(diagnostics), l.(requests := l.requests + 1, stale := l.stale + 1),
                           old(diagnostics).preparations,
                           m.(entryReleases := m.entryReleases + if old(entries[i]).record.program.Null? then 0 else 1))
      // A verdict is remembered that rules it out, for everyone or for this caller.
      ensures (i < entries.Length && old(entries[i]).record.valid && instructions > 0 && current
        && (old(entries[i]).record.capability == 3 || (old(entries[i]).record.capability == 2 && !allowMemory))) ==>
        var l, memory, why := old(diagnostics).lookups, old(entries[i]).record.capability == 2, old(entries[i]).record.rejection;
        && p == Null && Q() == old(Q()) && entries[..] == old(entries[..])
        && diagnostics.Now(old(diagnostics),
                           l.(requests := l.requests + 1, negative := l.negative + 1,
                              negativeMemory := l.negativeMemory + (if memory then 1 else 0),
                              negativeSemantic := l.negativeSemantic + (if !memory && why == 1 then 1 else 0),
                              negativeUnsupported := l.negativeUnsupported + (if !memory && why == 2 then 1 else 0),
                              negativeNull := l.negativeNull + (if !memory && why == 3 then 1 else 0)),
                           old(diagnostics).preparations, old(diagnostics).moves)
      // No verdict yet, and semantic candidates in the block: that becomes the verdict.
      ensures (i < entries.Length && old(entries[i]).record.valid && instructions > 0 && current
        && old(entries[i]).record.capability == 0 && semantic) ==>
        var l, e := old(diagnostics).lookups, old(entries[i]);
        && p == Null && Q() == old(Q())
        && entries[..] == old(entries[..])[i := e.(record := e.record.(capability := 3, rejection := 1))]
        && diagnostics.Now(old(diagnostics), l.(requests := l.requests + 1, semantic := l.semantic + 1),
                           old(diagnostics).preparations, old(diagnostics).moves)
      // A program this caller may run is retained: it is answered, and nothing is compiled.
      ensures (i < entries.Length && old(entries[i]).record.valid && instructions > 0 && current
        && old(entries[i]).record.program.Program?
        && (old(entries[i]).record.capability == 1 || (old(entries[i]).record.capability == 2 && allowMemory))) ==>
        var l, m := old(diagnostics).lookups, old(diagnostics).moves;
        && p == old(entries[i]).record.program && Q() == Touch(budget, old(Q()), i)
        && SameButReuse(old(entries[..]), entries[..])
        && diagnostics.Now(old(diagnostics), l.(requests := l.requests + 1, hits := l.hits + 1),
                           old(diagnostics).preparations,
                           m.(demotions := m.demotions + (if Demotes(budget, old(Q()), i) then 1 else 0),
                              promotions := m.promotions + (if Promotes(budget, old(Q()), i) then 1 else 0)))
      // Nothing is retained and nothing rules it out: compile. Every way that can end is counted once.
      ensures (i < entries.Length && old(entries[i]).record.valid && instructions > 0 && current
        && old(entries[i]).record.program.Null?
        && !(old(entries[i]).record.capability == 3 || (old(entries[i]).record.capability == 2 && !allowMemory))
        && !(old(entries[i]).record.capability == 0 && semantic)) ==>
        var usable := capability == 1 || (capability == 2 && allowMemory);
        var kept := usable && Admits(budget, old(Q()), compiled.Size());
        && (if usable then Q() == Lookup(budget, old(Q()), i, compiled.Size()) else Q() == old(Q()))
        && p == (if kept then compiled else Null)
        && entries[i].record.capability == (if capability == 0 then 3 else capability)
        && (capability == 0 ==> entries[i].record.rejection == if compiled.Program? then 2 else 3)
        && diagnostics.Compiles(old(diagnostics), compiled, capability, allowMemory,
                                Retirements(budget, old(Q()), compiled.Size()), kept)
    {
      hide TwoLists, Sound, Stored.Whole, Stored.Q, Release, Touch, Diagnostics.Books, Demotes, Promotes, SameButReuse,
           Diagnostics.Now, Diagnostics.Compiles, Diagnostics.SameCounts, Diagnostics.OnLookups, Diagnostics.OnMoves,
           Diagnostics.Requested, Diagnostics.Invalid, Diagnostics.Stale, Diagnostics.Refused, Diagnostics.Shifted,
           Diagnostics.HitProgram, Diagnostics.SemanticRejected, Lookup, Admits, Retirements, Diagnostics.EntryReleased;
      ghost var d, c := diagnostics, count;
      d.AnswerBooked(count, opening);
      d.AnswersMirror();
      d.AnswersCount();
      d.RefusalsCount();
      diagnostics := diagnostics.Requested();
      if i >= entries.Length || !entries[i].record.valid || instructions == 0 {
        diagnostics := diagnostics.Invalid();
        return Null;
      }
      if !current {
        diagnostics := diagnostics.Stale();
        ghost var d1 := diagnostics;
        Forget(i);
        diagnostics.DeparturesBooked(d1, c - count, c, opening);
        return Null;
      }
      View().ConsistentAt(budget, i);
      var r := entries[i].record;
      if r.capability == 3 || (r.capability == 2 && !allowMemory) {
        diagnostics := diagnostics.Refused(if r.capability == 2 then Memory else if r.rejection == 1 then SemanticVerdict
                                           else if r.rejection == 2 then Unsupported else NullPreparation);
        return Null;
      }
      if r.capability == 0 && semantic {
        Label(i, r.(capability := 3, rejection := 1));
        diagnostics := diagnostics.SemanticRejected();
        return Null;
      }
      if r.program.Program? {
        diagnostics := diagnostics.HitProgram();
        p := HitAt(i);
      } else {
        p := Prepare(i, allowMemory, compiled, capability, d);
      }
    }

    /** A hit on a retained program. */
    method HitAt(i: nat) returns (p: Program)
      requires Valid() && View().Holds(i)
      modifies this, entries
      ensures Valid() && opening == old(opening)
      ensures p == old(entries[i]).record.program && Q() == Touch(budget, old(Q()), i)
      ensures SameButReuse(old(entries[..]), entries[..]) && entries[i].record.(reuse := 0) == old(entries[i]).record.(reuse := 0)
      ensures diagnostics == old(diagnostics).Shifted(
        if Demotes(budget, old(Q()), i) then 1 else 0, if Promotes(budget, old(Q()), i) then 1 else 0)
    {
      hide TwoLists, Sound, Stored.Whole, Touch, Diagnostics.Books, Demotes, Promotes;
      ghost var d, q, r := diagnostics, Q(), entries[i].record;
      View().HoldsRetained(budget, i);
      RecordReuse(i);
      d.ShiftBooked(if Demotes(budget, q, i) then 1 else 0, if Promotes(budget, q, i) then 1 else 0, count, opening);
      assert entries[i].record.(reuse := 0) == r.(reuse := 0);
      return entries[i].record.program;
    }

    /** The miss path: compile, judge the result, make room, admit. */
    method Prepare(i: nat, allowMemory: bool, compiled: Program, capability: nat, ghost d: Diagnostics)
      returns (p: Program)
      requires Core() && i < entries.Length && !View().Holds(i) && entries[i].record.valid
      requires entries[i].record.capability < 3
      requires capability <= 2 && (compiled.Null? ==> capability == 0)
      requires d.Books(count, opening) && diagnostics == d.Requested()
      modifies this, entries
      ensures Valid() && opening == old(opening)
      ensures !Usable(capability, allowMemory) ==>
        p == Null && Q() == old(Q()) && entries[i].record.capability == (if capability == 0 then 3 else capability)
      ensures Usable(capability, allowMemory) ==>
        && Q() == Lookup(budget, old(Q()), i, compiled.bytes)
        && p == (if Admits(budget, old(Q()), compiled.bytes) then compiled else Null)
        && entries[i].record.capability == capability
      ensures diagnostics.SameCounts(d.Requested().Prepared(compiled, capability, allowMemory,
                Retirements(budget, old(Q()), compiled.Size()), Admits(budget, old(Q()), compiled.Size())))
      ensures capability == 0 ==> entries[i].record.rejection == if compiled.Program? then 2 else 3
      ensures p != Null ==> entries[i].record.program == p && entries[i].record.valid
      ensures diagnostics.Compiles(d, compiled, capability, allowMemory, Retirements(budget, old(Q()), compiled.Size()),
                                   Usable(capability, allowMemory) && Admits(budget, old(Q()), compiled.Size()))
    {
      hide TwoLists, Sound, Stored.Whole, Stored.Q, Lookup, Diagnostics.Books, Admits, Retirements,
           Diagnostics.SameCounts, Diagnostics.Evicted, Diagnostics.Requested, Diagnostics.Compiles;
      ghost var q := Q();
      d.UnusedBooked(count, opening);
      View().ConsistentAt(budget, i);
      diagnostics := diagnostics.Missed();
      diagnostics := if compiled.Program? then diagnostics.Compiled() else diagnostics.CompiledNull();
      Label(i, entries[i].record.(capability := if capability != 0 then capability else 3,
                                  rejection := if capability != 0 then entries[i].record.rejection
                                               else if compiled.Program? then 2 else 3));
      if !Usable(capability, allowMemory) {
        if compiled.Program? {
          diagnostics := if capability == 0 then diagnostics.Unusable() else diagnostics.Denied();
        }
        diagnostics.SameItself();
        d.PreparingCounts(diagnostics, compiled, capability, allowMemory, Retirements(budget, q, compiled.Size()),
                          Admits(budget, q, compiled.Size()));
        return Null;
      }
      p := Admission(i, compiled, capability, d);
      d.PreparingCounts(diagnostics, compiled, capability, allowMemory, Retirements(budget, q, compiled.Size()),
                        Admits(budget, q, compiled.Size()));
    }

    /** Make room for a usable program and file it, or discard it. */
    method Admission(i: nat, compiled: Program, capability: nat, ghost d: Diagnostics) returns (p: Program)
      requires Core() && i < entries.Length && !View().Holds(i) && entries[i].record.valid && compiled.Program?
      requires 1 <= capability == entries[i].record.capability <= 2
      requires d.Books(count, opening) && diagnostics == d.Requested().Missed().Compiled()
      modifies this, entries
      ensures Valid() && opening == old(opening)
      ensures Q() == Lookup(budget, old(Q()), i, compiled.bytes)
      ensures p == (if Admits(budget, old(Q()), compiled.bytes) then compiled else Null)
      ensures entries[i].record.capability == capability
      ensures p != Null ==> entries[i].record.program == p && entries[i].record.valid
      ensures var tried := d.Requested().Missed().Compiled().Evicted(Retirements(budget, old(Q()), compiled.bytes));
        diagnostics.SameCounts(if p != Null then tried.Admitted() else tried.BudgetRejected())
    {
      hide TwoLists, Sound, Stored.Whole, Stored.Q, Lookup, Diagnostics.Books, Admits, RetentionPolicy.MakeRoom, Admit,
           Retirements, Thinned, Diagnostics.SameCounts, Diagnostics.Evicted, Diagnostics.Requested, Diagnostics.Missed,
           Diagnostics.Compiled, Diagnostics.Admitted, Diagnostics.BudgetRejected, Diagnostics.Owned;
      var n := compiled.bytes;
      ghost var v, q := View(), Q();
      d.PreparingKeeps();
      v.MissAt(budget, i, n);
      var ok := MakeRoom(n);
      v.StillVacant(budget, i, View());
      diagnostics.RoomBooked(d, v.count - count, n, v.count, opening);
      diagnostics.AdmittedAlike(d.Requested().Missed().Compiled().Evicted(v.count - count), n);
      if !ok {
        diagnostics := diagnostics.BudgetRejected();
        return Null;
      }
      ghost var u := View();
      RewriteTwo(u.es, heads, tails, bytes, probation, guarded, i,
                 u.es[i].(record := u.es[i].record.(program := compiled, bytes := n)));
      entries[i] := entries[i].(record := entries[i].record.(program := compiled, bytes := n));
      assert entries[..] == u.es[i := entries[i]];
      ghost var es := entries[..];
      Append(i, 0);
      u.Admitted(budget, i, compiled, View());
      count := count + 1;
      diagnostics := diagnostics.Admitted();
      diagnostics := diagnostics.Owned(n);
      return compiled;
    }
  }
}
