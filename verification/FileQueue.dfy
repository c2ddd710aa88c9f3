/** The queue of waiting file transfers, with the count of those under way. */
module FileQueue {
  import ChatRooms
  import opened Ring

  const MAX_FILE_QUEUE := 5
  const MAX_SIMULTANEOUS_TRANSFERS := 5

  datatype FileMeta = FileMeta(sender: string, recipient: string, filename: string, filesize: nat,
                               senderSocket: int, recipientSocket: int)

  const NO_FILE := FileMeta("", "", "", 0, -1, -1)

  /** What the structure stands for. */
  datatype Transfers = Transfers(waiting: seq<FileMeta>, active: nat)

  datatype NextOutcome = Nothing | Dropped(meta: FileMeta) | Started(meta: FileMeta)

  /** Both parties are still there under their names. */
  predicate Online(clients: seq<ChatRooms.Client>, meta: FileMeta) {
    ChatRooms.FindUser(clients, meta.sender, 0) != -1 && ChatRooms.FindUser(clients, meta.recipient, 0) != -1
  }

  predicate Has(clients: seq<ChatRooms.Client>, name: string) {
    exists i :: 0 <= i < |clients| && clients[i].active && clients[i].username == name
  }

  lemma OnlineIff(clients: seq<ChatRooms.Client>, meta: FileMeta)
    ensures Online(clients, meta) <==> Has(clients, meta.sender) && Has(clients, meta.recipient)
  {
  }

  function Enqueue(t: Transfers, meta: FileMeta): (Transfers, bool) {
    if |t.waiting| == MAX_FILE_QUEUE then (t, false) else (t.(waiting := t.waiting + [meta]), true)
  }

  function Grant(t: Transfers): (Transfers, bool) {
    if t.active < MAX_SIMULTANEOUS_TRANSFERS then (t.(active := t.active + 1), true) else (t, false)
  }

  function Finish(t: Transfers): Transfers {
    if t.active > 0 then t.(active := t.active - 1) else t
  }

  function StartNext(t: Transfers, clients: seq<ChatRooms.Client>): (Transfers, NextOutcome) {
    if t.waiting == [] || t.active >= MAX_SIMULTANEOUS_TRANSFERS then (t, Nothing)
    else if !Online(clients, t.waiting[0]) then (t.(waiting := t.waiting[1..]), Dropped(t.waiting[0]))
    else (Transfers(t.waiting[1..], t.active + 1), Started(t.waiting[0]))
  }

  class Queue {
    const files: array<FileMeta>
    var front: nat
    var rear: nat
    var count: nat
    var activeTransfers: nat

    ghost predicate Valid()
      reads this
    {
      && files.Length == MAX_FILE_QUEUE && front < MAX_FILE_QUEUE && count <= MAX_FILE_QUEUE
      && rear == At(front, count, MAX_FILE_QUEUE)
    }

    ghost function Abs(): Transfers
      reads this, files
      requires Valid()
    {
      Transfers(Contents(files[..], front, count), activeTransfers)
    }

    constructor ()
      ensures Valid() && Abs() == Transfers([], 0) && fresh(files)
    {
      files := new FileMeta[MAX_FILE_QUEUE](_ => NO_FILE);
      front, rear, count, activeTransfers := 0, 0, 0, 0;
    }

    /** Refuses exactly when five are waiting. */
    method EnqueueFile(meta: FileMeta) returns (accepted: bool)
      requires Valid()
      modifies this, files
      ensures Valid() && (Abs(), accepted) == Enqueue(old(Abs()), meta)
    {
      if count == MAX_FILE_QUEUE {
        return false;
      }
      Push(files[..], front, count, meta);
      ghost var cells := files[..];
      files[rear] := meta;
      assert files[..] == cells[rear := meta];
      rear := At(rear, 1, MAX_FILE_QUEUE);
      count := count + 1;
      accepted := true;
    }

    method StartTransfer() returns (granted: bool)
      requires Valid()
      modifies this
      ensures Valid() && (Abs(), granted) == Grant(old(Abs()))
    {
      granted := activeTransfers < MAX_SIMULTANEOUS_TRANSFERS;
      if granted {
        activeTransfers := activeTransfers + 1;
      }
    }

    method FinishTransfer()
      requires Valid()
      modifies this
      ensures Valid() && Abs() == Finish(old(Abs()))
    {
      if activeTransfers > 0 {
        activeTransfers := activeTransfers - 1;
      }
    }

    method TryStartNext(clients: seq<ChatRooms.Client>) returns (outcome: NextOutcome)
      requires Valid()
      modifies this
      ensures Valid() && (Abs(), outcome) == StartNext(old(Abs()), clients)
    {
      if count > 0 && activeTransfers < MAX_SIMULTANEOUS_TRANSFERS {
        Pop(files[..], front, count);
        var meta := files[front];
        var senderActive := ChatRooms.FindUser(clients, meta.sender, 0) != -1;
        var recipientActive := ChatRooms.FindUser(clients, meta.recipient, 0) != -1;
        front := At(front, 1, MAX_FILE_QUEUE);
        count := count - 1;
        Rest(meta, Abs().waiting, old(Abs()).waiting);
        if !senderActive || !recipientActive {
          return Dropped(meta);
        }
        activeTransfers := activeTransfers + 1;
        return Started(meta);
      }
      return Nothing;
    }
  }
}
