// The ledger's write queue as a state machine: mutations and the steps of queued writes interleave
// at every await (ghosts/rdc-ledger/src/ledger.ts:412-432).
module PersistQueue {
  import opened Seqs
  import opened Ledger
  import opened Audit

  /** A file: absent, half written, or holding one whole snapshot. */
  datatype File = Missing | Torn | Whole(book: Book)

  /** The write at the head of the queue, by the await it is parked on. */
  datatype Job =
    | Idle
    | MakingDirectory
    | Writing(snap: Book)
    | Renaming

  /** Memory, the queue behind the running job, the two files, and whether the latest write went
      through. The last three fields are history: the operations so far, and how many of them the
      latest snapshot and the file on disk cover. */
  datatype Store = Store(
    memory: Book,
    queued: nat,
    job: Job,
    tmp: File,
    disk: File,
    lastOk: bool,
    history: seq<Op>,
    snapAt: nat,
    diskAt: nat)

  datatype Event =
    | Mutate(op: Op)
    | Begin
    | TakeSnapshot
    | Spill
    | WriteDone
    | Rename
    | Fail

  function Next(s: Store, e: Event): Store {
    match e
    case Mutate(op) =>
      s.(memory := Apply(s.memory, op), queued := s.queued + Writes(s.memory, op), history := s.history + [op])
    case Begin =>
      if s.job.Idle? && s.queued > 0 then s.(job := MakingDirectory, queued := s.queued - 1) else s
    case TakeSnapshot =>
      if s.job.MakingDirectory? then s.(job := Writing(s.memory), tmp := Torn, snapAt := |s.history|) else s
    case Spill =>
      if s.job.Writing? then s.(tmp := Torn) else s
    case WriteDone =>
      if s.job.Writing? then s.(job := Renaming, tmp := Whole(s.job.snap)) else s
    case Rename =>
      if s.job.Renaming? then s.(job := Idle, disk := s.tmp, tmp := Missing, lastOk := true, diskAt := s.snapAt) else s
    case Fail =>
      if s.job.Idle? then s else s.(job := Idle, lastOk := false)
  }

  /** A ledger that has just been made, or just been loaded from disk. */
  function Boot(b: Book, loaded: bool): Store {
    Store(b, 0, Idle, Missing, if loaded then Whole(b) else Missing, loaded, [], 0, 0)
  }

  function Run(s: Store, events: seq<Event>): Store {
    if events == [] then s else Next(Run(s, events[..|events| - 1]), events[|events| - 1])
  }

  /** The same ledger to any reader: an absent balance reads as the starting balance. */
  ghost predicate SameView(a: Book, b: Book) {
    && a.start == b.start
    && a.bounties == b.bounties
    && a.events == b.events
    && forall g :: Balance(a, g) == Balance(b, g)
  }

  /** The book after the first k operations. */
  function After(b: Book, s: Store, k: nat): Book
    requires k <= |s.history|
  {
    RunOps(b, s.history[..k])
  }

  /** No write is still to take its snapshot, and none has failed since the last snapshot. */
  predicate Settled(s: Store) {
    s.queued == 0 && !s.job.MakingDirectory? && (s.lastOk || !s.job.Idle?)
  }

  ghost predicate Inv(b: Book, s: Store) {
    && s.diskAt <= s.snapAt <= |s.history|
    && s.memory == RunOps(b, s.history)
    && (s.job.Writing? ==> s.job.snap == After(b, s, s.snapAt))
    && (s.job.Renaming? ==> s.tmp == Whole(After(b, s, s.snapAt)))
    && (s.disk == Missing || s.disk == Whole(After(b, s, s.diskAt)))
    && (s.lastOk ==> s.disk.Whole?)
    && (s.lastOk && s.job.Idle? ==> s.diskAt == s.snapAt)
    && (s.lastOk && s.job.MakingDirectory? ==> s.diskAt == s.snapAt)
    && (Settled(s) ==> SameView(s.memory, After(b, s, s.snapAt)))
  }

  lemma QuietKeepsView(b: Book, op: Op)
    requires Writes(b, op) == 0
    ensures SameView(Apply(b, op), b)
  {
    hide FindBounty;
  }

  lemma MutateKeepsInv(b: Book, s: Store, op: Op)
    requires Inv(b, s)
    ensures Inv(b, Next(s, Mutate(op)))
  {
    hide Apply, Writes, SameView, OpOutcome;
    var t := Next(s, Mutate(op));
    assert t.history[..|s.history|] == s.history;
    assert t.history[..s.snapAt] == s.history[..s.snapAt];
    assert t.history[..s.diskAt] == s.history[..s.diskAt];
    if Settled(t) {
      QuietKeepsView(s.memory, op);
      ViewsCompose(t.memory, s.memory, After(b, s, s.snapAt));
    }
  }

  lemma ViewsCompose(a: Book, b: Book, c: Book)
    requires SameView(a, b) && SameView(b, c)
    ensures SameView(a, c)
  {
    hide Balance;
  }

  lemma ViewIsReflexive(a: Book)
    ensures SameView(a, a)
  {
  }

  lemma StepKeepsInv(b: Book, s: Store, e: Event)
    requires Inv(b, s)
    ensures Inv(b, Next(s, e))
  {
    hide Apply, Writes, SameView, RunOps;
    if e.Mutate? {
      MutateKeepsInv(b, s, e.op);
    } else {
      assert s.history[..|s.history|] == s.history;
      ViewIsReflexive(s.memory);
    }
  }

  lemma {:induction false} RunKeepsInv(b: Book, loaded: bool, events: seq<Event>)
    ensures Inv(b, Run(Boot(b, loaded), events))
  {
    hide Inv, Next;
    if events == [] {
      BootIsSound(b, loaded);
    } else {
      RunKeepsInv(b, loaded, events[..|events| - 1]);
      StepKeepsInv(b, Run(Boot(b, loaded), events[..|events| - 1]), events[|events| - 1]);
    }
  }

  lemma BootIsSound(b: Book, loaded: bool)
    ensures Inv(b, Boot(b, loaded))
  {
    var none: seq<Op> := [];
    assert none[..0] == none;
    assert RunOps(b, none) == b;
  }

  // ----- What the disk holds -----

  /** However mutations and writes interleave and fail, the file on disk is never torn: it is the
      whole ledger as it stood between two operations. */
  lemma DiskIsAnOperationBoundary(b: Book, loaded: bool, events: seq<Event>)
    ensures var s := Run(Boot(b, loaded), events);
            s.disk == Missing || exists k :: 0 <= k <= |s.history| && s.disk == Whole(RunOps(b, s.history[..k]))
  {
    hide Next, Run, RunOps;
    RunKeepsInv(b, loaded, events);
    var s := Run(Boot(b, loaded), events);
    assert s.disk.Whole? ==> s.disk == Whole(RunOps(b, s.history[..s.diskAt]));
  }

  lemma StepNeverGoesBack(b: Book, s: Store, e: Event)
    requires Inv(b, s)
    ensures s.diskAt <= Next(s, e).diskAt && s.history <= Next(s, e).history
    ensures s.disk.Whole? ==> Next(s, e).disk.Whole?
  {
    hide Apply, Writes, RunOps, SameView;
  }

  /** The disk never falls back to an older ledger, and once written never disappears. */
  lemma {:induction false} DiskNeverGoesBack(b: Book, loaded: bool, events: seq<Event>, n: nat)
    requires n <= |events|
    ensures var s, t := Run(Boot(b, loaded), events[..n]), Run(Boot(b, loaded), events);
            s.diskAt <= t.diskAt && s.history <= t.history && (s.disk.Whole? ==> t.disk.Whole?)
    decreases |events|
  {
    hide Inv, Next;
    if n == |events| {
      assert events[..n] == events;
    } else {
      var init := events[..|events| - 1];
      assert init[..n] == events[..n];
      DiskNeverGoesBack(b, loaded, init, n);
      RunKeepsInv(b, loaded, init);
      StepNeverGoesBack(b, Run(Boot(b, loaded), init), events[|events| - 1]);
    }
  }

  /** Once the queue has drained and the last write went through, the disk reads as memory does. */
  lemma DrainedDiskIsMemory(b: Book, loaded: bool, events: seq<Event>)
    ensures var s := Run(Boot(b, loaded), events);
            s.queued == 0 && s.job.Idle? && s.lastOk ==> s.disk.Whole? && SameView(s.disk.book, s.memory)
  {
    hide Next, Run, RunOps, Balance;
    RunKeepsInv(b, loaded, events);
  }

  // ----- Nothing is lost by restarting from the disk -----

  /** What a run of operations creates and destroys in all. */
  function MintedBy(b: Book, ops: seq<Op>): int {
    if ops == [] then 0
    else
      var init := ops[..|ops| - 1];
      MintedBy(b, init) + Minted(RunOps(b, init), ops[|ops| - 1])
  }

  ghost predicate Covers(roster: seq<string>, b: Book, ops: seq<Op>) {
    forall k, g :: 0 <= k < |ops| && g in GhostsOf(RunOps(b, ops[..k]), ops[k]) ==> g in roster
  }

  lemma CoversPrefix(roster: seq<string>, b: Book, ops: seq<Op>, n: nat)
    requires Covers(roster, b, ops) && n <= |ops|
    ensures Covers(roster, b, ops[..n])
  {
    hide RunOps, GhostsOf;
    forall k, g | 0 <= k < n && g in GhostsOf(RunOps(b, ops[..n][..k]), ops[..n][k]) ensures g in roster {
      assert ops[..n][..k] == ops[..k];
    }
  }

  lemma {:induction false} RunConserves(b: Book, ops: seq<Op>, roster: seq<string>)
    requires Distinct(roster) && Covers(roster, b, ops)
    ensures Worth(RunOps(b, ops), roster) == Worth(b, roster) + MintedBy(b, ops)
  {
    hide Worth, Minted, GhostsOf, Apply;
    if ops != [] {
      var n := |ops| - 1;
      CoversPrefix(roster, b, ops, n);
      RunConserves(b, ops[..n], roster);
      OpConserves(RunOps(b, ops[..n]), ops[n], roster);
    }
  }

  /** A ledger restarted from its file at any moment holds what it started with and what the
      operations it remembers created, escrow included: never a debit without its bounty. */
  lemma DiskConserves(b: Book, loaded: bool, events: seq<Event>, roster: seq<string>)
    requires Distinct(roster) && Covers(roster, b, Run(Boot(b, loaded), events).history)
    ensures var s := Run(Boot(b, loaded), events);
            s.disk.Whole? ==>
              s.diskAt <= |s.history| &&
              Worth(s.disk.book, roster) == Worth(b, roster) + MintedBy(b, s.history[..s.diskAt])
  {
    hide Next, Run, RunOps, Worth, MintedBy, Covers;
    RunKeepsInv(b, loaded, events);
    var s := Run(Boot(b, loaded), events);
    CoversPrefix(roster, b, s.history, s.diskAt);
    RunConserves(b, s.history[..s.diskAt], roster);
  }
}
