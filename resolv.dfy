/** The state machine that manages the resolver configuration file: the live
    `/etc/resolv.conf` text, its backup `/etc/resolv.conf.bak`, the session
    flag that says the tool wrote the live file, and whether the process runs
    as root. Each operation is a function from a state (and the outcome of the
    file operations it performs) to the next state and an outcome. */
module Resolv {
  import opened Wrappers
  import opened Strings

  const DefaultDns: string := "1.1.1.1"
  const SecondaryDns: string := "1.0.0.1"
  /** The signature comment that opens every file the tool writes. */
  const Marker: string := "# Modified by dns-manager"

  /** The text written to the live file for primary nameserver `server`. */
  function Body(server: string): string {
    Marker + "\nnameserver " + server + "\nnameserver " + SecondaryDns
  }

  /** `backup` is `None` when no backup file exists. */
  datatype State = State(live: string, backup: Option<string>, didModify: bool, isRoot: bool)

  /** Refused: the privilege gate stopped the call. NoBackup: a restore found
      no backup. Failed: a copy or a write threw and was reported. */
  datatype Outcome = Done | Refused | NoBackup | Failed

  datatype Step = Step(state: State, outcome: Outcome)

  /** What the status report shows. */
  datatype Status = Status(content: string, modified: bool, backupExists: bool)

  /** Backs up the live file unless a backup already exists; `copyOk` says
      whether the copy succeeds. The live file and the flag are never touched. */
  function Backup(s: State, copyOk: bool): (r: Step)
    ensures r.outcome == Done || r.outcome == Failed
    ensures r.state.live == s.live && r.state.didModify == s.didModify && r.state.isRoot == s.isRoot
    ensures s.backup.Some? ==> r == Step(s, Done)
    ensures s.backup.None? ==> (r.outcome == Done <==> copyOk)
    ensures s.backup.None? && copyOk ==> r.state.backup == Some(s.live)
    ensures r.outcome == Failed ==> r.state == s
  {
    if s.backup.Some? then Step(s, Done)
    else if copyOk then Step(s.(backup := Some(s.live)), Done)
    else Step(s, Failed)
  }

  /** Sets the primary nameserver to `server` (the default when omitted):
      refused without root; otherwise backs up first and writes only when the
      backup step succeeded. A write failure after a fresh backup keeps that
      backup. */
  function Set(s: State, server: Option<string>, copyOk: bool, writeOk: bool): (r: Step)
    ensures !s.isRoot ==> r == Step(s, Refused)
    ensures r.outcome == Done <==> s.isRoot && (s.backup.Some? || copyOk) && writeOk
    ensures r.outcome == Done ==>
      r.state.live == Body(server.GetOr(DefaultDns)) && r.state.backup.Some? && r.state.didModify
    ensures r.outcome != Done ==> r.state.live == s.live && r.state.didModify == s.didModify
    ensures s.isRoot && s.backup.None? && !copyOk ==> r == Step(s, Failed)
    ensures s.backup.Some? ==> r.state.backup == s.backup
    ensures s.backup.None? && r.state.backup.Some? ==> r.state.backup == Some(s.live)
    ensures s.isRoot && s.backup.None? && copyOk ==> r.state.backup == Some(s.live)
    ensures s.isRoot && r.outcome != Done ==> r.outcome == Failed
    ensures r.state.isRoot == s.isRoot
  {
    if !s.isRoot then Step(s, Refused)
    else
      var b := Backup(s, copyOk);
      if b.outcome == Failed then Step(s, Failed)
      else if writeOk then
        Step(b.state.(live := Body(server.GetOr(DefaultDns)), didModify := true), Done)
      else Step(b.state, Failed)
  }

  /** Copies the backup onto the live file and clears the flag: refused
      without root, reported when there is no backup, and a no-op when the
      copy fails. The backup itself is kept. */
  function Restore(s: State, copyOk: bool): (r: Step)
    ensures !s.isRoot ==> r == Step(s, Refused)
    ensures s.isRoot && s.backup.None? ==> r == Step(s, NoBackup)
    ensures r.outcome == Done <==> s.isRoot && s.backup.Some? && copyOk
    ensures r.outcome == Done ==>
      r.state.live == s.backup.value && r.state.backup == s.backup && !r.state.didModify
    ensures s.isRoot && s.backup.Some? && !copyOk ==> r == Step(s, Failed)
    ensures r.outcome != Done ==> r.state == s
    ensures r.state.isRoot == s.isRoot
  {
    if !s.isRoot then Step(s, Refused)
    else if s.backup.None? then Step(s, NoBackup)
    else if copyOk then Step(s.(live := s.backup.value, didModify := false), Done)
    else Step(s, Failed)
  }

  /** The status report: the live text, whether the signature marker occurs
      in it, and whether a backup exists. */
  function StatusOf(s: State): (st: Status)
    ensures st.content == s.live
    ensures st.modified <==> exists i :: OccursAt(s.live, Marker, i)
    ensures st.backupExists <==> s.backup.Some?
  {
    Status(s.live, Includes(s.live, Marker), s.backup.Some?)
  }

  /** A successful set leaves a live file that reports as tool-written and a backup. */
  lemma StatusAfterSet(s: State, server: Option<string>, copyOk: bool, writeOk: bool)
    requires Set(s, server, copyOk, writeOk).outcome == Done
    ensures StatusOf(Set(s, server, copyOk, writeOk).state).modified
    ensures StatusOf(Set(s, server, copyOk, writeOk).state).backupExists
  {
    var x := server.GetOr(DefaultDns);
    assert Body(x) == Marker + ("\nnameserver " + x + "\nnameserver " + SecondaryDns);
    IncludesPrefix(Marker, "\nnameserver " + x + "\nnameserver " + SecondaryDns);
  }

  /** One call of a state-changing operation, with the outcomes of its file operations. */
  datatype Op = SetOp(server: Option<string>, copyOk: bool, writeOk: bool) | RestoreOp(copyOk: bool)

  function Apply(s: State, op: Op): State {
    match op
    case SetOp(server, copyOk, writeOk) => Set(s, server, copyOk, writeOk).state
    case RestoreOp(copyOk) => Restore(s, copyOk).state
  }

  /** The state after the operations `ops`, in order. */
  function Run(s: State, ops: seq<Op>): State
    decreases |ops|
  {
    if ops == [] then s else Run(Apply(s, ops[0]), ops[1..])
  }

  lemma {:induction false} RunAppend(s: State, a: seq<Op>, b: seq<Op>)
    ensures Run(s, a + b) == Run(Run(s, a), b)
    decreases |a|
  {
    if a == [] {
      assert a + b == b;
    } else {
      assert (a + b)[1..] == a[1..] + b;
      RunAppend(Apply(s, a[0]), a[1..], b);
    }
  }

  /** Before any backup the live file is still the original `o`; once a
      backup exists it holds `o`. */
  predicate Tracks(s: State, o: string) {
    (s.backup == None && s.live == o) || s.backup == Some(o)
  }

  /** Every operation keeps the original: the backup is made from it and is
      never overwritten, and nothing writes before the backup exists. */
  lemma ApplyTracks(s: State, op: Op, o: string)
    requires Tracks(s, o)
    ensures Tracks(Apply(s, op), o)
  {
  }

  lemma {:induction false} RunTracks(s: State, ops: seq<Op>, o: string)
    requires Tracks(s, o)
    ensures Tracks(Run(s, ops), o)
    decreases |ops|
  {
    if ops != [] {
      ApplyTracks(s, ops[0], o);
      RunTracks(Apply(s, ops[0]), ops[1..], o);
    }
  }

  /** A backup, once it exists, keeps its content through any operations. */
  lemma {:induction false} RunKeepsBackup(s: State, ops: seq<Op>, b: string)
    requires s.backup == Some(b)
    ensures Run(s, ops).backup == Some(b)
    decreases |ops|
  {
    if ops != [] {
      RunKeepsBackup(Apply(s, ops[0]), ops[1..], b);
    }
  }

  /** Without root nothing ever changes. */
  lemma {:induction false} RunWithoutRoot(s: State, ops: seq<Op>)
    requires !s.isRoot
    ensures Run(s, ops) == s
    decreases |ops|
  {
    if ops != [] {
      RunWithoutRoot(Apply(s, ops[0]), ops[1..]);
    }
  }

  /** Root never changes either. */
  lemma {:induction false} RunKeepsRoot(s: State, ops: seq<Op>)
    ensures Run(s, ops).isRoot == s.isRoot
    decreases |ops|
  {
    if ops != [] {
      RunKeepsRoot(Apply(s, ops[0]), ops[1..]);
    }
  }

  /** Starting with no backup and original content `o`, whatever operations
      run, a restore that succeeds brings back exactly `o`. */
  lemma RestoreBringsBackOriginal(o: string, flag: bool, root: bool, ops: seq<Op>, copyOk: bool)
    requires Restore(Run(State(o, None, flag, root), ops), copyOk).outcome == Done
    ensures Restore(Run(State(o, None, flag, root), ops), copyOk).state.live == o
    ensures !Restore(Run(State(o, None, flag, root), ops), copyOk).state.didModify
  {
    RunTracks(State(o, None, flag, root), ops, o);
  }

  /** After one or more successful sets, starting as root with no backup and
      original content `o`, there is a backup and a successful restore gives `o`
      back. */
  lemma {:induction false} SetsThenRestore(o: string, flag: bool, ops: seq<Op>)
    requires ops != []
    requires forall k :: 0 <= k < |ops| ==> ops[k].SetOp? && ops[k].copyOk && ops[k].writeOk
    ensures Run(State(o, None, flag, true), ops).backup == Some(o)
    ensures Restore(Run(State(o, None, flag, true), ops), true) ==
      Step(Run(State(o, None, flag, true), ops).(live := o, didModify := false), Done)
  {
    var s0 := State(o, None, flag, true);
    var s1 := Apply(s0, ops[0]);
    assert s1.backup == Some(o);
    RunKeepsBackup(s1, ops[1..], o);
    RunKeepsRoot(s1, ops[1..]);
  }
}
