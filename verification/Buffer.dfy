/** The bounded buffer between the manager and the workers. Each method is one pass through
    the critical section: where the C function would wait, it says so and changes nothing. */
module Buffer {
  import opened Ring

  /** What the buffer stands for: a queue of lines with a capacity, and the manager's flag. */
  datatype Queue = Queue(capacity: nat, lines: seq<string>, managerDone: bool)

  datatype AddOutcome = AddWaits | Dropped | Stored
  datatype GetOutcome = GetWaits | Nothing | Got(line: string)

  function Add(q: Queue, line: string, stop: bool): (Queue, AddOutcome) {
    if |q.lines| == q.capacity && !q.managerDone && !stop then (q, AddWaits)
    else if stop || q.managerDone then (q, Dropped)
    else (q.(lines := q.lines + [line]), Stored)
  }

  function Get(q: Queue, stop: bool): (Queue, GetOutcome) {
    if q.lines == [] then (q, if q.managerDone || stop then Nothing else GetWaits)
    else (q.(lines := q.lines[1..]), Got(q.lines[0]))
  }

  /** A line gets in exactly while nobody has asked to stop and there is room; otherwise the lines stay
      as they are, and the manager waits only for room. */
  lemma AddOutcomes(q: Queue, line: string, stop: bool)
    requires |q.lines| <= q.capacity
    ensures var (q', outcome) := Add(q, line, stop);
            var open := !stop && !q.managerDone;
            && (outcome.Stored? <==> open && |q.lines| < q.capacity)
            && (outcome.AddWaits? <==> open && |q.lines| == q.capacity)
            && q'.lines == (if outcome.Stored? then q.lines + [line] else q.lines)
            && q'.managerDone == q.managerDone && q'.capacity == q.capacity
  {
  }

  /** A line is there to be taken exactly if the queue is not empty, stop or no stop; a worker waits only
      while there may be more to come. */
  lemma GetOutcomes(q: Queue, stop: bool)
    ensures var (q', outcome) := Get(q, stop);
            && (outcome.Got? <==> q.lines != [])
            && (outcome.GetWaits? <==> q.lines == [] && !q.managerDone && !stop)
            && (if outcome.Got? then [outcome.line] + q'.lines == q.lines else q'.lines == q.lines)
            && q'.managerDone == q.managerDone && q'.capacity == q.capacity
  {
  }

  class SharedBuffer {
    const lines: array<string>
    var in_: nat
    var out_: nat
    var count: nat
    var managerDone: bool

    ghost predicate Valid()
      reads this
    {
      out_ < lines.Length && count <= lines.Length && in_ == At(out_, count, lines.Length)
    }

    ghost function Abs(): Queue
      reads this, lines
      requires Valid()
    {
      Queue(lines.Length, Contents(lines[..], out_, count), managerDone)
    }

    constructor (size: nat)
      requires size > 0
      ensures Valid() && Abs() == Queue(size, [], false) && fresh(lines)
    {
      in_, out_, count, managerDone := 0, 0, 0, false;
      lines := new string[size](_ => "");
    }

    method AddLine(line: string, stop: bool) returns (outcome: AddOutcome)
      requires Valid()
      modifies this, lines
      ensures Valid() && (Abs(), outcome) == Add(old(Abs()), line, stop)
    {
      if count == lines.Length && !managerDone && !stop {
        return AddWaits;
      }
      if stop || managerDone {
        return Dropped;
      }
      Push(lines[..], out_, count, line);
      ghost var cells := lines[..];
      lines[in_] := line;
      assert lines[..] == cells[in_ := line];
      in_ := At(in_, 1, lines.Length);
      count := count + 1;
      outcome := Stored;
    }

    method GetLine(stop: bool) returns (outcome: GetOutcome)
      requires Valid()
      modifies this
      ensures Valid() && (Abs(), outcome) == Get(old(Abs()), stop)
    {
      if count == 0 && !managerDone && !stop {
        return GetWaits;
      }
      if count == 0 && (managerDone || stop) {
        return Nothing;
      }
      if count > 0 {
        Pop(lines[..], out_, count);
        var line := lines[out_];
        out_ := At(out_, 1, lines.Length);
        count := count - 1;
        Rest(line, Abs().lines, old(Abs()).lines);
        return Got(line);
      }
      assert false;
    }

    method SetDone()
      requires Valid()
      modifies this
      ensures Valid() && Abs() == old(Abs()).(managerDone := true)
    {
      managerDone := true;
    }

    /** Frees what is left, first to last. */
    method Destroy() returns (freed: seq<string>)
      requires Valid()
      modifies this
      ensures Valid() && Abs() == old(Abs()).(lines := [])
      ensures freed == old(Abs()).lines
    {
      freed := [];
      while count > 0
        invariant Valid() && managerDone == old(managerDone)
        invariant freed + Abs().lines == old(Abs()).lines
        decreases count
      {
        Pop(lines[..], out_, count);
        ghost var left := Abs().lines;
        var line := lines[out_];
        out_ := At(out_, 1, lines.Length);
        count := count - 1;
        Shift(freed, line, Abs().lines, left);
        freed := freed + [line];
      }
    }
  }
}
