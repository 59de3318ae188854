/** The workspace that readers rebuild by replaying the durable event log. */
module Workspace {
  import opened Common

  datatype Operation =
    | PutFile(path: Path, content: Content)
    | DeleteFile(path: Path)
    | RenameFile(from: Path, to: Path)
    | SetMainFile(path: Path)

  type Event = seq<Operation>

  datatype State = State(files: map<Path, Content>, main: Option<Path>)

  const EMPTY := State(map[], None)

  /** One operation, as the strict reader applies it: a missing or taken path is an error. */
  function Apply(s: State, op: Operation): Option<State>
  {
    match op
    case PutFile(path, content) =>
      Some(s.(files := s.files[path := content]))
    case DeleteFile(path) =>
      if path !in s.files then None
      else Some(State(s.files - {path}, if s.main == Some(path) then None else s.main))
    case RenameFile(from, to) =>
      if from !in s.files then None
      else if from == to then Some(s)
      else if to in s.files then None
      else Some(State((s.files - {from})[to := s.files[from]], if s.main == Some(from) then Some(to) else s.main))
    case SetMainFile(path) =>
      if path in s.files then Some(s.(main := Some(path))) else None
  }

  function ApplyAll(s: State, ops: seq<Operation>): Option<State>
  {
    if ops == [] then Some(s)
    else
      match ApplyAll(s, ops[..|ops|-1])
      case None => None
      case Some(mid) => Apply(mid, ops[|ops|-1])
  }

  /** Main is unset or names a file. */
  predicate MainLives(s: State)
  {
    s.main.Some? ==> s.main.value in s.files
  }

  /** A whole event is accepted or refused; an empty one is refused. */
  function ApplyEvent(s: State, event: Event): Option<State>
  {
    if event == [] then None
    else
      match ApplyAll(s, event)
      case None => None
      case Some(next) => if MainLives(next) then Some(next) else None
  }

  function Replay(log: seq<Event>): Option<State>
  {
    if log == [] then Some(EMPTY)
    else
      match Replay(log[..|log|-1])
      case None => None
      case Some(s) => ApplyEvent(s, log[|log|-1])
  }

  // --- the lenient Main-only replay used while publishing --------------------

  function MainStep(main: Option<Path>, op: Operation): Option<Path>
  {
    match op
    case SetMainFile(path) => Some(path)
    case RenameFile(from, to) => if main == Some(from) then Some(to) else main
    case DeleteFile(path) => if main == Some(path) then None else main
    case PutFile(_, _) => main
  }

  function MainThrough(main: Option<Path>, ops: seq<Operation>): Option<Path>
  {
    if ops == [] then main else MainStep(MainThrough(main, ops[..|ops|-1]), ops[|ops|-1])
  }

  function ReplayMain(log: seq<Event>): Option<Path>
  {
    if log == [] then None else MainThrough(ReplayMain(log[..|log|-1]), log[|log|-1])
  }

  lemma {:induction false} ApplyAllTracksMain(s: State, ops: seq<Operation>)
    requires ApplyAll(s, ops).Some?
    ensures ApplyAll(s, ops).value.main == MainThrough(s.main, ops)
  {
    if ops != [] {
      ApplyAllTracksMain(s, ops[..|ops|-1]);
    }
  }

  /** Whatever the strict reader accepts, the Main-only replay finds the same Main, and it names a file. */
  lemma {:induction false} ReplayMainAgrees(log: seq<Event>)
    requires Replay(log).Some?
    ensures Replay(log).value.main == ReplayMain(log)
    ensures MainLives(Replay(log).value)
  {
    if log != [] {
      ReplayMainAgrees(log[..|log|-1]);
      ApplyAllTracksMain(Replay(log[..|log|-1]).value, log[|log|-1]);
    }
  }

  /** workspace_main_tx: two nested loops over events and their operations. */
  method FindMain(log: seq<Event>) returns (main: Option<Path>)
    ensures main == ReplayMain(log)
  {
    main := None;
    for i := 0 to |log|
      invariant main == ReplayMain(log[..i])
    {
      ghost var before := main;
      for j := 0 to |log[i]|
        invariant main == MainThrough(before, log[i][..j])
      {
        assert log[i][..j+1][..j] == log[i][..j];
        match log[i][j] {
          case SetMainFile(path) => main := Some(path);
          case RenameFile(from, to) => if main == Some(from) { main := Some(to); }
          case DeleteFile(path) => if main == Some(path) { main := None; }
          case PutFile(_, _) =>
        }
      }
      assert log[i][..|log[i]|] == log[i];
      assert log[..i+1][..i] == log[..i];
    }
    assert log[..|log|] == log;
  }

  lemma {:induction false} ApplyAllConcat(s: State, a: seq<Operation>, b: seq<Operation>)
    ensures ApplyAll(s, a + b) ==
            match ApplyAll(s, a) { case None => None case Some(mid) => ApplyAll(mid, b) }
  {
    if b == [] {
      assert a + b == a;
    } else {
      assert (a + b)[..|a + b| - 1] == a + b[..|b|-1];
      ApplyAllConcat(s, a, b[..|b|-1]);
    }
  }

  // --- what the strict reader refuses ---------------------------------------------------------

  /** What the operation needs: a put nothing, any other its file, and a rename a free path or the file's own. */
  predicate Legal(s: State, op: Operation)
  {
    match op
    case PutFile(_, _) => true
    case DeleteFile(path) => path in s.files
    case RenameFile(from, to) => from in s.files && (to in s.files ==> to == from)
    case SetMainFile(path) => path in s.files
  }

  /** The file that a path holds afterwards. */
  function Afterwards(s: State, op: Operation, q: Path): Option<Content>
  {
    var held := if q in s.files then Some(s.files[q]) else None;
    match op
    case PutFile(path, content) => if q == path then Some(content) else held
    case DeleteFile(path) => if q == path then None else held
    case RenameFile(from, to) =>
      if q == to && from in s.files then Some(s.files[from]) else if q == from then None else held
    case SetMainFile(_) => held
  }

  /** The reader accepts exactly the legal operations, and no other path than theirs changes. */
  lemma AppliesExactly(s: State, op: Operation, q: Path)
    ensures Apply(s, op).Some? <==> Legal(s, op)
    ensures Legal(s, op) ==>
              Afterwards(s, op, q) == if q in Apply(s, op).value.files then Some(Apply(s, op).value.files[q]) else None
  {
  }

  ghost predicate LegalThroughout(s: State, ops: seq<Operation>)
  {
    forall n :: 0 <= n < |ops| ==> ApplyAll(s, ops[..n]).Some? && Legal(ApplyAll(s, ops[..n]).value, ops[n])
  }

  lemma {:induction false} AcceptedOperationsAreLegal(s: State, ops: seq<Operation>)
    ensures ApplyAll(s, ops).Some? <==> LegalThroughout(s, ops)
  {
    if ops != [] {
      var most, last := ops[..|ops|-1], ops[|ops|-1];
      AcceptedOperationsAreLegal(s, most);
      assert forall n :: 0 <= n < |most| ==> ops[..n] == most[..n] && ops[n] == most[n];
      assert ops[..|most|] == most;
      if ApplyAll(s, most).Some? { AppliesExactly(ApplyAll(s, most).value, last, []); }
    }
  }

  /** The event does something, nothing illegal, and leaves no Main that is not a file. */
  ghost predicate LegalEvent(s: State, event: Event)
  {
    event != [] && LegalThroughout(s, event) && ApplyAll(s, event).Some? && MainLives(ApplyAll(s, event).value)
  }

  ghost predicate LegalLog(log: seq<Event>)
  {
    forall n :: 0 <= n < |log| ==> Replay(log[..n]).Some? && LegalEvent(Replay(log[..n]).value, log[n])
  }

  /** The accepted logs are those in which every event was legal when it was appended. */
  lemma {:induction false} AcceptedLogsAreLegal(log: seq<Event>)
    ensures Replay(log).Some? <==> LegalLog(log)
  {
    if log != [] {
      var most, last := log[..|log|-1], log[|log|-1];
      AcceptedLogsAreLegal(most);
      assert forall n :: 0 <= n < |most| ==> log[..n] == most[..n] && log[n] == most[n];
      assert log[..|most|] == most;
      if Replay(most).Some? { AcceptedOperationsAreLegal(Replay(most).value, last); }
    }
  }
}
