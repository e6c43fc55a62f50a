/** A relay thread of the driver: 256 slots, three one-byte positions, and the window they delimit. */
module Relay {
  import Ring

  type Position = p: int | 0 <= p < 256

  /** A slot of the buffer; until it is first written it holds whatever was in memory. */
  datatype Cell = Unwritten(slot: Ring.Slot) | Written(slot: Ring.Slot)

  lemma SlotsDiffer(i: nat, j: nat)
    requires i < j < i + 256
    ensures i % 256 != j % 256
  {
  }

  /** Subtracting positions modulo 256 gives the distance between nearby counts. */
  lemma Distance(i: nat, j: nat)
    requires i <= j < i + 256
    ensures (j % 256 - i % 256) % 256 == j - i
  {
  }

  lemma WrapAround(i: nat)
    ensures (i + 256) % 256 == i % 256
  {
  }

  lemma NextPosition(i: nat)
    ensures (i % 256 + 1) % 256 == (i + 1) % 256
  {
  }

  /** Slots `c .. a`, counted from the start of the run, have been written. */
  ghost predicate Filled(slots: seq<Cell>, c: nat, a: nat) {
    && |slots| == 256 && c <= a <= c + 256
    && forall i :: c <= i < a ==> slots[i % 256].Written?
  }

  /** The slots from the completed position to the accepted one. */
  ghost function WindowOf(slots: seq<Cell>, c: nat, a: nat): (w: seq<Ring.Slot>)
    requires Filled(slots, c, a)
    ensures |w| == a - c && forall k :: 0 <= k < a - c ==> w[k] == slots[(c + k) % 256].slot
  {
    seq(a - c, k requires 0 <= k < a - c => slots[(c + k) % 256].slot)
  }

  /** Every written slot has an identifier of its own, below the counter. */
  ghost predicate Distinct(slots: seq<Cell>, counter: nat) {
    && (forall i, j :: 0 <= i < j < |slots| && slots[i].Written? && slots[j].Written? ==>
          slots[i].slot.ident != slots[j].slot.ident)
    && (forall i :: 0 <= i < |slots| && slots[i].Written? ==> slots[i].slot.ident < counter)
  }

  lemma SlotAt(slots: seq<Cell>, c: nat, a: nat, i: nat)
    requires Filled(slots, c, a) && c <= i < a
    ensures |slots| == 256 && slots[i % 256].Written? && slots[i % 256].slot == WindowOf(slots, c, a)[i - c]
  {
  }

  lemma Push(slots: seq<Cell>, c: nat, a: nat, slot: Ring.Slot)
    requires Filled(slots, c, a) && a - c < 256 && Distinct(slots, slot.ident)
    ensures var after := slots[a % 256 := Written(slot)];
            && Filled(after, c, a + 1) && WindowOf(after, c, a + 1) == WindowOf(slots, c, a) + [slot]
            && Distinct(after, slot.ident + Ring.THREADS)
  {
    var after := slots[a % 256 := Written(slot)];
    forall i | c <= i < a ensures after[i % 256] == slots[i % 256] {
      SlotsDiffer(i, a);
    }
    var w, w1 := WindowOf(slots, c, a), WindowOf(after, c, a + 1);
    forall k | 0 <= k < a - c ensures w1[k] == w[k] {
      assert after[(c + k) % 256] == slots[(c + k) % 256];
    }
    assert w1[a - c] == after[(c + (a - c)) % 256].slot;
  }

  /** Exchange the slot of window position `k` with the oldest one, and let that leave. */
  function Exchanged(slots: seq<Cell>, pos: nat, oldest: nat): seq<Cell>
    requires pos < |slots| && oldest < |slots|
  {
    slots[pos := slots[oldest]][oldest := slots[pos]]
  }

  lemma Exchange(slots: seq<Cell>, c: nat, a: nat, k: nat)
    requires Filled(slots, c, a) && k < a - c
    ensures var after := Exchanged(slots, (c + k) % 256, c % 256); var w := WindowOf(slots, c, a);
            Filled(after, c + 1, a) && WindowOf(after, c + 1, a) == w[k := w[0]][1..]
  {
    var after, w := Exchanged(slots, (c + k) % 256, c % 256), WindowOf(slots, c, a);
    forall i | c + 1 <= i < a
      ensures after[i % 256] == if i == c + k then slots[c % 256] else slots[i % 256]
    {
      SlotsDiffer(c, i);
      if i < c + k {
        SlotsDiffer(i, c + k);
      } else if c + k < i {
        SlotsDiffer(c + k, i);
      }
    }
    var after1 := WindowOf(after, c + 1, a);
    forall j | 0 <= j < a - c - 1 ensures after1[j] == w[k := w[0]][1..][j] {
      assert (c + 1 + j) == c + (j + 1);
    }
  }

  lemma ExchangeDistinct(slots: seq<Cell>, counter: nat, pos: nat, oldest: nat)
    requires Distinct(slots, counter) && pos < |slots| && oldest < |slots|
    ensures Distinct(Exchanged(slots, pos, oldest), counter)
  {
  }

  /** The first slot with this identifier, or the number of slots. */
  function FirstAt(slots: seq<Cell>, ident: nat): (pos: nat)
    ensures pos <= |slots| && (pos < |slots| ==> slots[pos].slot.ident == ident)
    ensures forall i :: 0 <= i < pos ==> slots[i].slot.ident != ident
  {
    if slots == [] then 0
    else if slots[0].slot.ident == ident then 0
    else
      var pos := FirstAt(slots[1..], ident);
      assert forall i :: 1 <= i < pos + 1 ==> slots[i] == slots[1..][i - 1];
      pos + 1
  }

  /** No slot that was never written happens to contain the identifier. */
  ghost predicate Clean(slots: seq<Cell>, ident: nat) {
    forall i :: 0 <= i < |slots| && slots[i].Unwritten? ==> slots[i].slot.ident != ident
  }

  /** The identifier of a request in the window is first found at that request's slot. */
  lemma InWindow(slots: seq<Cell>, c: nat, a: nat, counter: nat, ident: nat)
    requires Filled(slots, c, a) && Distinct(slots, counter) && Clean(slots, ident)
    requires Ring.Position(WindowOf(slots, c, a), ident) < a - c
    ensures FirstAt(slots, ident) == (c + Ring.Position(WindowOf(slots, c, a), ident)) % 256
  {
    var k := Ring.Position(WindowOf(slots, c, a), ident);
    SlotAt(slots, c, a, c + k);
    var p := (c + k) % 256;
    assert slots[p].Written? && slots[p].slot.ident == ident;
  }

  /** Writing over the oldest of 256 requests leaves it nowhere. */
  lemma Overwritten(slots: seq<Cell>, c: nat, slot: Ring.Slot)
    requires Filled(slots, c, c + 256) && Distinct(slots, slot.ident)
    ensures c % 256 == (c + 256) % 256
    ensures var after := slots[c % 256 := Written(slot)];
            forall i :: 0 <= i < 256 ==> after[i].slot != WindowOf(slots, c, c + 256)[0]
  {
    forall i | 0 <= i < 256 ensures slots[i].Written? {
      AllTaken(slots, c, i);
    }
    assert WindowOf(slots, c, c + 256)[0] == slots[c % 256].slot;
  }

  lemma AllTaken(slots: seq<Cell>, c: nat, i: nat)
    requires Filled(slots, c, c + 256) && i < 256
    ensures slots[i].Written?
  {
    var j := c + (i - c % 256) % 256;
    assert j % 256 == i;
  }

  /** What becomes of a response: no slot has its identifier, or the first slot that has is ended. */
  datatype Ending = Dangling | Ended(slot: Ring.Slot)

  class RelayData {
    const thread: nat
    const buf: array<Cell>
    var forwarded: Position
    var accepted: Position
    var completed: Position
    var counter: nat
    // How many requests were completed, forwarded and accepted since the start, and which.
    ghost var c: nat
    ghost var f: nat
    ghost var a: nat
    ghost var ended: seq<Ring.Slot>
    ghost var submitted: seq<Ring.Slot>

    ghost predicate Counted()
      reads this
    {
      && accepted == a % 256 && forwarded == f % 256 && completed == c % 256
      && c <= f <= a <= c + Ring.CAPACITY
    }

    ghost predicate Valid()
      reads this, buf
    {
      && buf.Length == 256 && Counted() && Filled(buf[..], c, a) && Distinct(buf[..], counter)
      && counter == thread + Ring.THREADS * |submitted| && |ended| == c
    }

    /** All 256 slots are taken, and the accepted position is back at the completed one. */
    ghost predicate Overfull()
      reads this, buf
    {
      && buf.Length == 256 && accepted == completed == c % 256 && a == c + 256
      && Filled(buf[..], c, a) && Distinct(buf[..], counter)
    }

    ghost function Window(): (w: seq<Ring.Slot>)
      reads this, buf
      requires Valid() || Overfull()
    {
      WindowOf(buf[..], c, a)
    }

    ghost function View(): Ring.State
      reads this, buf
      requires Valid()
    {
      Ring.State(Window(), f - c, ended, submitted)
    }

    /** The buffer is allocated and not cleared: `memory` is what it happens to contain. */
    constructor (thread: nat, memory: seq<Ring.Slot>)
      requires |memory| == 256
      ensures Valid() && fresh(buf) && this.thread == thread && View() == Ring.After(thread, [])
      ensures forall i :: 0 <= i < 256 ==> buf[i] == Unwritten(memory[i])
      ensures accepted == forwarded == completed == 0 && counter == thread
    {
      this.thread := thread;
      buf := new Cell[256](i requires 0 <= i < 256 => Unwritten(memory[i]));
      forwarded, accepted, completed, counter := 0, 0, 0, thread;
      c, f, a, ended, submitted := 0, 0, 0, [], [];
    }

    /** The test for a full window as the code makes it. */
    predicate LooksFull()
      reads this
    {
      Ring.LooksFull(accepted, completed)
    }

    /** The code notices a full window exactly when the completed position is 0. */
    lemma FullTestIff()
      requires Valid()
      ensures LooksFull() <==> |Window()| == Ring.CAPACITY && completed == 0
    {
    }

    /**
     * Accept a request. With fewer than 255 in the window it joins the end. With 255, the code refuses it only
     * if `LooksFull`; otherwise the window is overfull and looks empty, and the submission after that overwrites
     * the oldest request.
     */
    method Submit(request: nat) returns (ok: bool)
      requires Valid() || Overfull()
      modifies this`accepted, this`counter, this`a, this`submitted, buf
      ensures ok == old(!LooksFull())
      ensures !ok ==> old(Valid()) && Valid() && View() == old(View())
      ensures old(Valid()) ==> (Valid() <==> old(|Window()| < Ring.CAPACITY || LooksFull()))
      ensures old(Valid()) && ok && |old(Window())| < Ring.CAPACITY ==>
                View() == Ring.Next(old(View()), thread, Ring.Submit(request))
      ensures old(Valid()) && ok && |old(Window())| < Ring.CAPACITY ==>
                Window() == old(Window()) + [Ring.Slot(old(counter), request)] && counter == old(counter) + 10
      ensures old(Valid()) && ok && |old(Window())| == Ring.CAPACITY ==>
                Overfull() && Window() == old(Window()) + [Ring.Slot(old(counter), request)]
      ensures old(Overfull()) ==>
                buf[..] == old(buf[..])[old(completed) := Written(Ring.Slot(old(counter), request))]
      ensures old(Overfull()) ==> forall i :: 0 <= i < 256 ==> buf[i].slot != old(Window())[0]
    {
      hide Filled;
      hide Distinct;
      hide WindowOf;
      WrapAround(c);
      if Valid() {
        FullTestIff();
      }
      if accepted - completed == 255 {
        return false;
      }
      ghost var slots, slot := buf[..], Ring.Slot(counter, request);
      if a < c + 256 {
        Push(slots, c, a, slot);
      } else {
        Overwritten(slots, c, slot);
      }
      Put(request);
      ok := true;
    }

    /** Write a request at the accepted position, which moves on. */
    method Put(request: nat)
      requires buf.Length == 256 && accepted == a % 256
      modifies this`accepted, this`counter, this`a, this`submitted, buf
      ensures buf[..] == old(buf[..])[old(a) % 256 := Written(Ring.Slot(old(counter), request))]
      ensures a == old(a) + 1 && accepted == a % 256 && counter == old(counter) + Ring.THREADS
      ensures submitted == old(submitted) + [Ring.Slot(old(counter), request)]
    {
      ghost var slots := buf[..];
      NextPosition(a);
      buf[accepted] := Written(Ring.Slot(counter, request));
      assert buf[..] == slots[a % 256 := Written(Ring.Slot(counter, request))];
      submitted := submitted + [Ring.Slot(counter, request)];
      accepted := (accepted + 1) % 256;
      counter := counter + Ring.THREADS;
      a := a + 1;
    }

    /** How many accepted requests may be sent now. */
    function ToSend(): (k: nat)
      reads this
    {
      var waiting := (accepted - forwarded) % 256;
      var room := (255 - (forwarded - completed) % 256) % 256;
      if waiting < room then waiting else room
    }

    /** Everything accepted and not yet forwarded may always be sent. */
    lemma SendsAll()
      requires Valid()
      ensures ToSend() == |Window()| - (f - c)
    {
      hide Filled;
      hide Distinct;
      hide WindowOf;
      Distance(f, a);
      Distance(c, f);
      assert (accepted - forwarded) % 256 == a - f && (forwarded - completed) % 256 == f - c;
    }

    /** Send what is waiting, in order; `failing` is the number of sends after which the connection fails. */
    method SendAccepted(failing: nat) returns (ok: bool, sent: seq<Ring.Slot>)
      requires Valid()
      modifies this`forwarded, this`f
      ensures Valid() && View() == Ring.Next(old(View()), thread, Ring.Send(|sent|))
      ensures Window() == old(Window()) && f == old(f) + |sent| && forwarded == f % 256
      ensures sent == old(Window())[old(f - c)..old(f - c) + |sent|]
      ensures ok <==> failing >= |old(Window())| - old(f - c)
      ensures |sent| == if ok then |old(Window())| - old(f - c) else failing
    {
      hide Filled;
      hide Distinct;
      hide WindowOf;
      SendsAll();
      var count := ToSend();
      ghost var window, first := Window(), f - c;
      sent := [];
      ok := true;
      while count > 0
        invariant Valid() && ok && Window() == window && |sent| <= failing
        invariant f - c == first + |sent| && count == |window| - (f - c)
        invariant sent == window[first..f - c]
      {
        if |sent| == failing {
          ok := false;
          return;
        }
        SlotAt(buf[..], c, a, f);
        NextPosition(f);
        sent := sent + [buf[forwarded].slot];
        forwarded := (forwarded + 1) % 256;
        f := f + 1;
        count := count - 1;
      }
    }

    /** A connection error: everything in the window is to be sent again. */
    method ErrorReset()
      requires Valid()
      modifies this`forwarded, this`f
      ensures Valid() && View() == Ring.Next(old(View()), thread, Ring.Reset)
      ensures f == c && forwarded == completed && Window() == old(Window()) && ToSend() == |Window()|
    {
      forwarded := completed;
      f := c;
      SendsAll();
    }

    /** One turn of the thread after a connection error: everything is sent again, and once more after a failure. */
    method Resend(failing: nat) returns (ok: bool, sent: seq<Ring.Slot>)
      requires Valid()
      modifies this`forwarded, this`f
      ensures Valid() && Window() == old(Window()) && (ok <==> failing >= |Window()|)
      ensures ok ==> sent == Window() && f == a
      ensures !ok ==> sent == Window()[..failing] && f == c && ToSend() == |Window()|
    {
      hide Filled;
      hide Distinct;
      hide WindowOf;
      ErrorReset();
      ok, sent := SendAccepted(failing);
      if !ok {
        ErrorReset();
      }
    }

    /** The first slot with this identifier, or 256; slots never written are looked at too. */
    method FindRequest(ident: nat) returns (pos: nat)
      requires buf.Length == 256
      ensures pos == FirstAt(buf[..], ident)
    {
      pos := 0;
      while pos < 256
        invariant pos <= 256
        invariant forall i :: 0 <= i < pos ==> buf[i].slot.ident != ident
      {
        if buf[pos].slot.ident == ident {
          return;
        }
        pos := pos + 1;
      }
    }

    /**
     * A response arrives. The first slot with its identifier is ended and changes places with the oldest one; if
     * there is none, the code ends a request it has not looked up (`Dangling`). Unless memory happens to contain
     * the identifier, this completes a request of the window if and only if that request is in the window and
     * something is in flight.
     */
    method CompleteOne(ident: nat) returns (r: Ending)
      requires Valid()
      modifies this`completed, this`c, this`ended, buf
      ensures r.Dangling? <==> FirstAt(old(buf[..]), ident) == 256
      ensures r.Dangling? ==> Valid() && View() == old(View())
      ensures r.Ended? ==>
                var pos := FirstAt(old(buf[..]), ident);
                && r.slot == old(buf[..])[pos].slot
                && buf[..] == Exchanged(old(buf[..]), pos, old(completed))
                && ended == old(ended) + [r.slot] && completed == (old(completed) + 1) % 256 && c == old(c) + 1
      ensures Clean(old(buf[..]), ident) && Ring.Enabled(old(View()), Ring.Complete(ident)) ==>
                && Valid() && View() == Ring.Next(old(View()), thread, Ring.Complete(ident))
                && r == Ended(old(Window())[Ring.Position(old(Window()), ident)])
      ensures r.Ended? && !Ring.Enabled(old(View()), Ring.Complete(ident)) ==>
                !(Valid() && View() == Ring.Next(old(View()), thread, Ring.Complete(ident)))
    {
      hide Filled;
      hide Distinct;
      hide WindowOf;
      hide Clean;
      var pos := FindRequest(ident);
      ghost var slots, window := buf[..], Window();
      ghost var k := Ring.Position(window, ident);
      if Clean(slots, ident) && k < |window| && f > c {
        InWindow(slots, c, a, counter, ident);
        Exchange(slots, c, a, k);
        ExchangeDistinct(slots, counter, pos, completed);
      }
      if pos == 256 {
        return Dangling;
      }
      var slot := EndAt(pos);
      r := Ended(slot);
    }

    /** The slot at `pos` changes places with the one at the completed position, which moves on. */
    method EndAt(pos: nat) returns (slot: Ring.Slot)
      requires buf.Length == 256 && completed == c % 256 && pos < 256
      modifies this`completed, this`c, this`ended, buf
      ensures slot == old(buf[pos]).slot && ended == old(ended) + [slot]
      ensures buf[..] == Exchanged(old(buf[..]), pos, old(completed))
      ensures c == old(c) + 1 && completed == c % 256 == (old(completed) + 1) % 256
    {
      var cell := buf[pos];
      slot := cell.slot;
      ghost var slots := buf[..];
      NextPosition(c);
      buf[pos] := buf[completed];
      buf[completed] := cell;
      assert buf[..] == Exchanged(slots, pos, completed);
      completed := (completed + 1) % 256;
      c := c + 1;
      ended := ended + [slot];
    }
  }
}
