/**
 The coalescing save-writer of `internal/proxycfg`, `internal/modelaccess` and
 `internal/runtimecfg`, over the tmp-and-rename write of `internal/atomicfile`, as a transition
 system. Every locked section, channel operation and file-system effect is one step; savers
 run one at a time, because each holds the lock of the configuration it saves.
 */
module SaveWriter {
  import opened Options

  /** Contents of the configuration are told apart by the order in which they arose. */
  type Version = nat

  /** A file holds the complete encoding of a version or only the beginning of it. */
  datatype Content = Whole(version: Version) | Torn(version: Version)

  datatype Saver = NoSaver | Marshalled(data: Version) | Posted

  datatype Writer =
    | Waiting
    | Woken
    | Holding(data: Version)
    | Drafting(data: Version, name: nat)
    | Drafted(data: Version, name: nat)

  datatype State = State(
    current: Version,
    next: Version,
    saver: Saver,
    pending: Option<Version>,
    token: bool,
    writer: Writer,
    file: Content,
    drafts: map<nat, Content>,
    names: nat,
    /** The version last taken up by the writer, or loaded at the start. */
    taken: Version,
    /** The last attempt to write failed. */
    failed: bool
  )

  datatype Step =
    | Mutate
    | Post
    | Signal
    | Wake
    | Take
    | CreateDraft
    | FillDraft
    | DraftFails
    | Rename
    | RenameFails
    | Crash

  predicate Enabled(s: State, step: Step) {
    match step
    case Mutate => s.saver.NoSaver?
    case Post => s.saver.Marshalled?
    case Signal => s.saver.Posted?
    case Wake => s.writer.Waiting? && s.token
    case Take => s.writer.Woken?
    case CreateDraft => s.writer.Holding?
    case FillDraft => s.writer.Drafting?
    case DraftFails => s.writer.Holding? || s.writer.Drafting?
    case Rename => s.writer.Drafted? && s.writer.name in s.drafts
    case RenameFails => s.writer.Drafted?
    case Crash => true
  }

  function Apply(s: State, step: Step): State
    requires Enabled(s, step)
  {
    match step
    case Mutate => s.(current := s.next, next := s.next + 1, saver := Marshalled(s.next))
    case Post => s.(pending := Some(s.saver.data), saver := Posted)
    case Signal => s.(token := true, saver := NoSaver)
    case Wake => s.(token := false, writer := Woken)
    case Take =>
      (match s.pending
       case None => s.(writer := Waiting)
       case Some(v) => s.(pending := None, writer := Holding(v), taken := v))
    case CreateDraft =>
      s.(writer := Drafting(s.writer.data, s.names), drafts := s.drafts[s.names := Torn(s.writer.data)], names := s.names + 1)
    case FillDraft =>
      s.(writer := Drafted(s.writer.data, s.writer.name), drafts := s.drafts[s.writer.name := Whole(s.writer.data)])
    case DraftFails => s.(writer := Waiting, failed := true)
    case Rename =>
      s.(writer := Waiting, failed := false, file := s.drafts[s.writer.name], drafts := s.drafts - {s.writer.name})
    case RenameFails => s.(writer := Waiting, failed := true, drafts := s.drafts - {s.writer.name})
    // The process is gone and a new one loads the file; drafts stay behind.
    case Crash =>
      s.(saver := NoSaver, pending := None, token := false, writer := Waiting,
         current := s.file.version, taken := s.file.version, failed := false)
  }

  function Start(v: Version): State {
    State(v, v + 1, NoSaver, None, false, Waiting, Whole(v), map[], 0, v, false)
  }

  // ----- invariants -----

  /** Somebody is going to see to the pending data. */
  predicate Attended(s: State) {
    s.pending.Some? ==> s.token || s.saver.Posted? || s.writer.Woken?
  }

  /** The newest version is with the saver, pending, or was taken by the writer last. */
  predicate NewestIsHeld(s: State) {
    match s.saver
    case Marshalled(v) => v == s.current
    case _ => s.current == if s.pending.Some? then s.pending.value else s.taken
  }

  predicate InOrder(s: State) {
    && s.file.version <= s.taken <= s.current < s.next
    && (s.pending.Some? ==> s.taken < s.pending.value <= s.current)
    && (s.saver.Marshalled? ==> s.taken < s.current && (s.pending.Some? ==> s.pending.value < s.current))
  }

  /** What the writer works on is newer than the file; when it rests, the file has it or a write failed. */
  predicate WriterIsCurrent(s: State) {
    match s.writer
    case Holding(v) => v == s.taken && s.file.version < v
    case Drafting(v, name) => v == s.taken && s.file.version < v && name < s.names
    case Drafted(v, name) => v == s.taken && s.file.version < v && name in s.drafts && s.drafts[name] == Whole(v)
    case _ => s.failed || s.file.version == s.taken
  }

  predicate Inv(s: State) {
    Attended(s) && NewestIsHeld(s) && InOrder(s) && WriterIsCurrent(s) && s.file.Whole?
    && (s.failed ==> s.file.version < s.taken)
  }

  lemma StartIsGood(v: Version)
    ensures Inv(Start(v))
  {
  }

  lemma StepKeepsInv(s: State, step: Step)
    requires Inv(s) && Enabled(s, step)
    ensures Inv(Apply(s, step))
  {
  }

  /** Whatever happens, the file goes from one complete version to a later complete one or stays. */
  lemma FileMovesForward(s: State, step: Step)
    requires Inv(s) && Enabled(s, step)
    ensures var after := Apply(s, step);
            && after.file.Whole?
            && (after.file != s.file ==> step == Rename && after.file.version == s.taken > s.file.version)
  {
  }

  // ----- runs -----

  ghost predicate IsRun(run: seq<State>) {
    && run != []
    && forall i :: 0 <= i < |run| - 1 ==> Leads(run[i], run[i + 1])
  }

  ghost predicate Leads(s: State, t: State) {
    exists step :: Enabled(s, step) && Apply(s, step) == t
  }

  lemma {:induction false} RunKeepsInv(run: seq<State>, i: nat)
    requires IsRun(run) && Inv(run[0]) && i < |run|
    ensures Inv(run[i])
  {
    if i > 0 {
      RunKeepsInv(run, i - 1);
      var step := StepTaken(run, i - 1);
      StepKeepsInv(run[i - 1], step);
    }
  }

  lemma StepTaken(run: seq<State>, i: nat) returns (step: Step)
    requires IsRun(run) && i + 1 < |run|
    ensures Enabled(run[i], step) && Apply(run[i], step) == run[i + 1]
  {
    assert Leads(run[i], run[i + 1]);
    step :| Enabled(run[i], step) && Apply(run[i], step) == run[i + 1];
  }

  /** At every point of every run, crashes included, the file is a complete version no older than before. */
  lemma {:induction false} FileIsNeverTorn(run: seq<State>, i: nat, j: nat)
    requires IsRun(run) && Inv(run[0]) && i <= j < |run|
    ensures run[i].file.Whole? && run[j].file.Whole? && run[i].file.version <= run[j].file.version
  {
    RunKeepsInv(run, i);
    if i < j {
      FileIsNeverTorn(run, i, j - 1);
      RunKeepsInv(run, j - 1);
      var step := StepTaken(run, j - 1);
      hide Inv, Apply, Enabled;
      FileMovesForward(run[j - 1], step);
    }
  }

  // ----- no update is lost -----

  predicate Quiet(s: State) {
    s.saver.NoSaver? && !s.token && s.writer.Waiting?
  }

  /** At rest nothing is pending, and the file is the latest state if and only if the last write did not fail. */
  lemma QuietMeansSaved(s: State)
    requires Inv(s) && Quiet(s)
    ensures s.pending.None?
    ensures s.taken == s.current
    ensures !s.failed <==> s.file == Whole(s.current)
  {
  }

  /** A failed write is not repeated: the update stays off the disk until another one is saved. */
  lemma FailedWriteIsNotRetried(s: State, step: Step)
    requires Inv(s) && Quiet(s) && s.failed && Enabled(s, step)
    ensures step == Mutate || step == Crash
    ensures step == Crash ==> Apply(s, step).current < s.current
  {
  }

  /** The states of a run, given its steps. */
  function After(s: State, steps: seq<Step>): seq<State>
    decreases |steps|
  {
    if steps == [] || !Enabled(s, steps[0]) then [s] else [s] + After(Apply(s, steps[0]), steps[1..])
  }

  /** One save whose write fails: the writer rests, and the file still holds what it held before the save. */
  lemma FailedRun(v: Version)
    ensures var run := After(Start(v), [Mutate, Post, Signal, Wake, Take, DraftFails]);
            && IsRun(run) && |run| == 7
            && var end := run[6]; Quiet(end) && end.failed && end.current == v + 1 && end.file == Whole(v)
  {
    var s1 := Apply(Start(v), Mutate);
    var s2 := Apply(s1, Post);
    var s3 := Apply(s2, Signal);
    var s4 := Apply(s3, Wake);
    var s5 := Apply(s4, Take);
    var s6 := Apply(s5, DraftFails);
    assert After(s6, []) == [s6];
    assert After(s5, [DraftFails]) == [s5, s6];
    assert After(s4, [Take, DraftFails]) == [s4, s5, s6];
    assert After(s3, [Wake, Take, DraftFails]) == [s3, s4, s5, s6];
    assert After(s2, [Signal, Wake, Take, DraftFails]) == [s2, s3, s4, s5, s6];
    assert After(s1, [Post, Signal, Wake, Take, DraftFails]) == [s1, s2, s3, s4, s5, s6];
    assert After(Start(v), [Mutate, Post, Signal, Wake, Take, DraftFails]) == [Start(v), s1, s2, s3, s4, s5, s6];
    hide Apply;
    assert Leads(Start(v), s1) && Leads(s1, s2) && Leads(s2, s3) && Leads(s3, s4) && Leads(s4, s5) && Leads(s5, s6);
  }

  /** What the writer still has to do before it rests. */
  function Work(s: State): nat {
    (if s.token then 6 else 0)
    + match s.writer
      case Waiting => 0
      case Woken => 5
      case Holding(_) => 4
      case Drafting(_, _) => 3
      case Drafted(_, _) => 2
  }

  /** The next step of a writer whose file operations succeed. */
  function WriterStep(s: State): Step
    requires !Quiet(s) && s.saver.NoSaver?
  {
    match s.writer
    case Waiting => Wake
    case Woken => Take
    case Holding(_) => CreateDraft
    case Drafting(_, _) => FillDraft
    case Drafted(_, _) => Rename
  }

  lemma WriterGoesOn(s: State)
    requires Inv(s) && !Quiet(s) && s.saver.NoSaver?
    ensures Enabled(s, WriterStep(s))
    ensures var after := Apply(s, WriterStep(s));
            Work(after) < Work(s) && after.saver.NoSaver? && after.current == s.current
  {
  }

  /** The state when the writer, left alone, has come to rest. */
  function Drained(s: State): State
    requires Inv(s) && s.saver.NoSaver?
    decreases Work(s)
  {
    if Quiet(s) then s
    else
      WriterGoesOn(s);
      StepKeepsInv(s, WriterStep(s));
      Drained(Apply(s, WriterStep(s)))
  }

  /**
   From every reachable state between savers the writer alone, its writes succeeding, comes to rest
   with the latest state on disk. No wake-up is ever missed. Only a write that had already failed
   before, with nothing saved since, stays missing.
   */
  lemma {:induction false} WriterCatchesUp(s: State)
    requires Inv(s) && s.saver.NoSaver?
    ensures var end := Drained(s);
            && Inv(end) && Quiet(end) && end.current == s.current
            && (end.file == Whole(s.current) <==>
                  !s.failed || s.pending.Some? || !(s.writer.Waiting? || s.writer.Woken?))
    decreases Work(s)
  {
    if Quiet(s) {
      QuietMeansSaved(s);
    } else {
      WriterGoesOn(s);
      StepKeepsInv(s, WriterStep(s));
      WriterCatchesUp(Apply(s, WriterStep(s)));
    }
  }
}
