/** The three mutexes of the chat server: which code takes them in which order, and why no set of
    threads can block itself. */
module LockOrder {

  datatype Lock = QueueMutex | ClientsMutex | RoomsMutex

  datatype Action = Acquire(lock: Lock) | Release(lock: Lock)

  function Rank(l: Lock): nat {
    match l
    case QueueMutex => 0
    case ClientsMutex => 1
    case RoomsMutex => 2
  }

  /** The pieces of code that lock, by exit path. */
  datatype Operation =
    | AcceptSlot | AcceptRollback
    | ReaderStart | ReaderCheck | ReaderLog | ReaderCleanup
    | Username | JoinRoom | LeaveRoom | BroadcastCommand | BroadcastToRoom
    | WhisperCommand | SendPrivate | ListNowhere | ListRoom | ExitCommand
    | SendFileRefused | SendFileOnline
    | StartTransfer | EnqueueFile | FinishTransfer
    | NextStarted | NextDropped | NextNothing

  function Nested(a: Lock, b: Lock): seq<Action> {
    [Acquire(a), Acquire(b), Release(b), Release(a)]
  }

  function Only(a: Lock): seq<Action> {
    [Acquire(a), Release(a)]
  }

  /** The ways in which the server's code locks. */
  datatype Shape =
    | QueueOnly | ClientsOnly | ClientsTwice
    | QueueAndClients | ClientsAndRooms | ClientsThenBoth

  function LocksIn(x: Shape): seq<Action> {
    match x
    case QueueOnly => Only(QueueMutex)
    case ClientsOnly => Only(ClientsMutex)
    case ClientsTwice => Only(ClientsMutex) + Only(ClientsMutex)
    case QueueAndClients => Nested(QueueMutex, ClientsMutex)
    case ClientsAndRooms => Nested(ClientsMutex, RoomsMutex)
    case ClientsThenBoth => Only(ClientsMutex) + Nested(ClientsMutex, RoomsMutex)
  }

  function ShapeOf(o: Operation): Shape {
    match o
    case AcceptSlot => ClientsOnly
    case AcceptRollback => ClientsOnly
    case ReaderStart => ClientsOnly
    case ReaderCheck => ClientsOnly
    case ReaderLog => ClientsOnly
    case ReaderCleanup => ClientsAndRooms
    case Username => ClientsOnly
    case JoinRoom => ClientsAndRooms
    case LeaveRoom => ClientsAndRooms
    case BroadcastCommand => ClientsOnly
    case BroadcastToRoom => ClientsAndRooms
    case WhisperCommand => ClientsOnly
    case SendPrivate => ClientsOnly
    case ListNowhere => ClientsOnly
    case ListRoom => ClientsThenBoth
    case ExitCommand => ClientsOnly
    case SendFileRefused => ClientsOnly
    case SendFileOnline => ClientsTwice
    case StartTransfer => QueueOnly
    case EnqueueFile => QueueOnly
    case FinishTransfer => QueueOnly
    case NextStarted => QueueAndClients
    case NextDropped => QueueAndClients
    case NextNothing => QueueOnly
  }

  function LocksOf(o: Operation): seq<Action> {
    LocksIn(ShapeOf(o))
  }

  function Script(ops: seq<Operation>): seq<Action> {
    if ops == [] then [] else LocksOf(ops[0]) + Script(ops[1..])
  }

  /** With `held` in hand, `todo` takes locks only upwards in rank, releases only what it holds, and
      ends with nothing held. */
  predicate Disciplined(held: set<Lock>, todo: seq<Action>)
    decreases |todo|
  {
    if todo == [] then held == {}
    else
      match todo[0]
      case Acquire(l) => (forall h | h in held :: Rank(h) < Rank(l)) && Disciplined(held + {l}, todo[1..])
      case Release(l) => l in held && Disciplined(held - {l}, todo[1..])
  }

  datatype Thread = Thread(held: set<Lock>, todo: seq<Action>)

  predicate FreeOf(threads: seq<Thread>, l: Lock) {
    forall i | 0 <= i < |threads| :: l !in threads[i].held
  }

  predicate CanMove(threads: seq<Thread>, i: nat)
    requires i < |threads|
  {
    var todo := threads[i].todo;
    todo != [] && (todo[0].Acquire? ==> FreeOf(threads, todo[0].lock))
  }

  function Move(threads: seq<Thread>, i: nat): seq<Thread>
    requires i < |threads|
  {
    if !CanMove(threads, i) then threads
    else
      var t := threads[i];
      var held := if t.todo[0].Acquire? then t.held + {t.todo[0].lock} else t.held - {t.todo[0].lock};
      threads[i := Thread(held, t.todo[1..])]
  }

  function Execute(threads: seq<Thread>, schedule: seq<nat>): seq<Thread> {
    if schedule == [] then threads
    else
      var before := Execute(threads, schedule[..|schedule| - 1]);
      var i := schedule[|schedule| - 1];
      if i < |before| then Move(before, i) else before
  }

  function Launch(work: seq<seq<Operation>>): seq<Thread> {
    seq(|work|, i requires 0 <= i < |work| => Thread({}, Script(work[i])))
  }

  // ----- the discipline -----

  /** Disciplined code may follow disciplined code. */
  lemma {:induction false} Sequel(held: set<Lock>, first: seq<Action>, second: seq<Action>)
    requires Disciplined(held, first) && Disciplined({}, second)
    ensures Disciplined(held, first + second)
    decreases |first|
  {
    if first == [] {
      assert first + second == second;
    } else {
      var l := first[0].lock;
      assert (first + second)[1..] == first[1..] + second;
      Sequel(if first[0].Acquire? then held + {l} else held - {l}, first[1..], second);
    }
  }

  lemma NestedDisciplined(a: Lock, b: Lock)
    requires Rank(a) < Rank(b)
    ensures Disciplined({}, Nested(a, b))
  {
    var s := Nested(a, b);
    assert s[1..] == [Acquire(b), Release(b), Release(a)];
    assert s[1..][1..] == [Release(b), Release(a)];
    assert s[1..][1..][1..] == [Release(a)];
    assert s[1..][1..][1..][1..] == [];
    assert {} + {a} == {a} && {a} + {b} - {b} == {a} && {a} - {a} == {};
  }

  lemma OnlyDisciplined(a: Lock)
    ensures Disciplined({}, Only(a))
  {
    var s := Only(a);
    assert s[1..] == [Release(a)] && s[1..][1..] == [];
    assert {} + {a} - {a} == {};
  }

  lemma ShapeDisciplined(x: Shape)
    ensures Disciplined({}, LocksIn(x))
  {
    match x {
      case QueueOnly => OnlyDisciplined(QueueMutex);
      case ClientsOnly => OnlyDisciplined(ClientsMutex);
      case ClientsTwice =>
        OnlyDisciplined(ClientsMutex);
        Sequel({}, Only(ClientsMutex), Only(ClientsMutex));
      case QueueAndClients => NestedDisciplined(QueueMutex, ClientsMutex);
      case ClientsAndRooms => NestedDisciplined(ClientsMutex, RoomsMutex);
      case ClientsThenBoth =>
        OnlyDisciplined(ClientsMutex);
        NestedDisciplined(ClientsMutex, RoomsMutex);
        Sequel({}, Only(ClientsMutex), Nested(ClientsMutex, RoomsMutex));
    }
  }

  /** Every piece of code, on every path, takes the queue's mutex before the clients' and the clients'
      before the rooms', and gives back all it took. */
  lemma OperationDisciplined(o: Operation)
    ensures Disciplined({}, LocksOf(o))
  {
    ShapeDisciplined(ShapeOf(o));
  }

  /** The code that works on the room table. */
  predicate UsesRooms(o: Operation) {
    o.ReaderCleanup? || o.JoinRoom? || o.LeaveRoom? || o.BroadcastToRoom? || o.ListRoom?
  }

  /** The code that works on the file queue. */
  predicate UsesQueue(o: Operation) {
    o.StartTransfer? || o.EnqueueFile? || o.FinishTransfer? || o.NextStarted? || o.NextDropped? || o.NextNothing?
  }

  /** The code that works on the client table: all but those that only touch the file queue. */
  predicate UsesClients(o: Operation) {
    UsesQueue(o) ==> o.NextStarted? || o.NextDropped?
  }

  /** Every piece of code takes exactly the mutexes of the tables it works on. */
  lemma OperationGuarded(o: Operation)
    ensures Acquire(RoomsMutex) in LocksOf(o) <==> UsesRooms(o)
    ensures Acquire(ClientsMutex) in LocksOf(o) <==> UsesClients(o)
    ensures Acquire(QueueMutex) in LocksOf(o) <==> UsesQueue(o)
  {
    ShapeTakes(ShapeOf(o));
  }

  lemma ShapeTakes(x: Shape)
    ensures Acquire(RoomsMutex) in LocksIn(x) <==> x.ClientsAndRooms? || x.ClientsThenBoth?
    ensures Acquire(ClientsMutex) in LocksIn(x) <==> !x.QueueOnly?
    ensures Acquire(QueueMutex) in LocksIn(x) <==> x.QueueOnly? || x.QueueAndClients?
  {
    var s := LocksIn(x);
    assert s[0].Acquire?;
    assert x.ClientsAndRooms? || x.QueueAndClients? ==> s[1].Acquire?;
    assert x.ClientsThenBoth? ==> s[3].Acquire?;
  }

  lemma {:induction false} ScriptDisciplined(ops: seq<Operation>)
    ensures Disciplined({}, Script(ops))
  {
    if ops != [] {
      OperationDisciplined(ops[0]);
      ScriptDisciplined(ops[1..]);
      Sequel({}, LocksOf(ops[0]), Script(ops[1..]));
    }
  }

  // ----- the threads -----

  ghost predicate Inv(threads: seq<Thread>) {
    && (forall i | 0 <= i < |threads| :: Disciplined(threads[i].held, threads[i].todo))
    && (forall i, j | 0 <= i < j < |threads| :: threads[i].held !! threads[j].held)
  }

  lemma MoveKeeps(threads: seq<Thread>, i: nat)
    requires Inv(threads) && i < |threads|
    ensures Inv(Move(threads, i))
  {
    assert Disciplined(threads[i].held, threads[i].todo);
  }

  lemma {:induction false} ExecuteKeeps(threads: seq<Thread>, schedule: seq<nat>)
    requires Inv(threads)
    ensures Inv(Execute(threads, schedule)) && |Execute(threads, schedule)| == |threads|
  {
    if schedule != [] {
      ExecuteKeeps(threads, schedule[..|schedule| - 1]);
      var before, i := Execute(threads, schedule[..|schedule| - 1]), schedule[|schedule| - 1];
      if i < |before| { MoveKeeps(before, i); }
    }
  }

  /** A thread that holds a lock of which no higher one is held by anybody can go on. */
  lemma TopHolderMoves(threads: seq<Thread>, i: nat, top: Lock)
    requires Inv(threads) && i < |threads| && top in threads[i].held
    requires forall j, l | 0 <= j < |threads| && l in threads[j].held :: Rank(l) <= Rank(top)
    ensures CanMove(threads, i)
  {
    assert Disciplined(threads[i].held, threads[i].todo);
    var todo := threads[i].todo;
    if todo[0].Acquire? {
      assert Rank(top) < Rank(todo[0].lock);
    }
  }

  lemma SomebodyMoves(threads: seq<Thread>, k: nat)
    requires Inv(threads) && k < |threads| && threads[k].todo != []
    ensures exists i: nat :: i < |threads| && CanMove(threads, i)
  {
    if i :| 0 <= i < |threads| && RoomsMutex in threads[i].held {
      TopHolderMoves(threads, i, RoomsMutex);
    } else if i :| 0 <= i < |threads| && ClientsMutex in threads[i].held {
      TopHolderMoves(threads, i, ClientsMutex);
    } else if i :| 0 <= i < |threads| && QueueMutex in threads[i].held {
      TopHolderMoves(threads, i, QueueMutex);
    } else {
      assert Disciplined(threads[k].held, threads[k].todo);
      var l := threads[k].todo[0].lock;
      assert l == RoomsMutex || l == ClientsMutex || l == QueueMutex;
      assert CanMove(threads, k);
    }
  }

  /** Deadlock freedom: any number of threads running any of the server's code in any order and any
      interleaving; as long as one of them has locking left to do, one of them can do it, and no
      lock is ever held twice. */
  lemma NoDeadlock(work: seq<seq<Operation>>, schedule: seq<nat>, k: nat)
    ensures var threads := Execute(Launch(work), schedule);
            && |threads| == |work|
            && (k < |work| && (threads[k].todo != [] || threads[k].held != {}) ==>
                  exists i: nat :: i < |threads| && CanMove(threads, i))
            && (forall i, j | 0 <= i < j < |threads| :: threads[i].held !! threads[j].held)
  {
    forall i: nat | i < |work| ensures Disciplined({}, Script(work[i])) { ScriptDisciplined(work[i]); }
    assert Inv(Launch(work));
    ExecuteKeeps(Launch(work), schedule);
    var threads := Execute(Launch(work), schedule);
    if k < |work| && (threads[k].todo != [] || threads[k].held != {}) {
      assert Disciplined(threads[k].held, threads[k].todo);
      SomebodyMoves(threads, k);
    }
  }
}
