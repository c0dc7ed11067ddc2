/** Text broadcast over X client messages (KXMessages): cutting a message into 20-byte
    fragments and putting the fragments of interleaved senders together again. */
module XMessages {

  const SIZE: nat := 20

  type Window = nat

  /** The two atoms of a message type: NAME_BEGIN on the first fragment, NAME on the others. */
  datatype Kind = Begin | Continue

  datatype Fragment = Fragment(window: Window, kind: Kind, data: seq<char>)

  /** A delivered message, with the window it came from. */
  datatype Delivery = Delivery(window: Window, text: string)

  // ---------------------------------------------------------------- sending

  /** n zero bytes. */
  function Zeros(n: nat): seq<char> {
    seq(n, _ => '\0')
  }

  /** The bytes of one client message: up to 20 bytes of s, padded with zeros. */
  function Padded(s: string): (d: seq<char>)
    ensures |d| == SIZE
  {
    if |s| >= SIZE then s[..SIZE] else s + Zeros(SIZE - |s|)
  }

  /** The fragments that carry the rest of a message; the last one is never full. */
  function Fragments(w: Window, kind: Kind, rest: string): seq<Fragment>
    decreases |rest|
  {
    [Fragment(w, kind, Padded(rest))]
    + if |rest| < SIZE then [] else Fragments(w, Continue, rest[SIZE..])
  }

  /** How a message is cut: fragment k carries the bytes from 20 k on, as many of its 20 as there
      are, and zeros after them; only the first is a beginning; and there are just enough of them
      that the last one holds fewer than 20 bytes of the message. */
  lemma {:induction false} FragmentsExactly(w: Window, kind: Kind, msg: string)
    ensures var fs := Fragments(w, kind, msg);
            && |fs| == |msg| / 20 + 1
            && forall k :: 0 <= k < |fs| ==>
                 && fs[k].window == w && fs[k].kind == (if k == 0 then kind else Continue) && |fs[k].data| == 20
                 && forall i :: 0 <= i < 20 ==>
                      fs[k].data[i] == if 20 * k + i < |msg| then msg[20 * k + i] else '\0'
    decreases |msg|
  {
    if |msg| >= SIZE {
      var rest := msg[SIZE..];
      FragmentsExactly(w, Continue, rest);
      var fs, gs := Fragments(w, kind, msg), Fragments(w, Continue, rest);
      assert fs == [Fragment(w, kind, Padded(msg))] + gs;
      assert |msg| / 20 == |rest| / 20 + 1;
      forall k | 0 <= k < |fs|
        ensures && fs[k].window == w && fs[k].kind == (if k == 0 then kind else Continue) && |fs[k].data| == 20
                && forall i :: 0 <= i < 20 ==>
                     fs[k].data[i] == if 20 * k + i < |msg| then msg[20 * k + i] else '\0'
      {
        if k > 0 {
          assert fs[k] == gs[k - 1];
        }
      }
    }
  }

  /** The two inner loops of send_message_internal: copy up to 20 bytes, then pad. */
  method FillData(data8: array<char>, msg: string, pos: nat)
    requires data8.Length == SIZE && pos <= |msg|
    modifies data8
    ensures data8[..] == Padded(msg[pos..])
  {
    var i := 0;
    while i < SIZE && i + pos < |msg|
      invariant 0 <= i <= SIZE && i + pos <= |msg|
      invariant forall k :: 0 <= k < i ==> data8[k] == msg[pos + k]
    {
      data8[i] := msg[i + pos];
      i := i + 1;
    }
    ghost var filled := i;
    while i < SIZE
      invariant filled <= i <= SIZE
      invariant forall k :: 0 <= k < filled ==> data8[k] == msg[pos + k]
      invariant forall k :: filled <= k < i ==> data8[k] == '\0'
    {
      data8[i] := '\0';
      i := i + 1;
    }
  }

  lemma FragmentsStep(w: Window, kind: Kind, msg: string, pos: nat)
    requires pos <= |msg|
    ensures Fragments(w, kind, msg[pos..])
            == [Fragment(w, kind, Padded(msg[pos..]))]
               + if pos + SIZE <= |msg| then Fragments(w, Continue, msg[pos + SIZE..]) else []
  {
    if pos + SIZE <= |msg| {
      assert msg[pos..][SIZE..] == msg[pos + SIZE..];
    }
  }

  /** send_message_internal: the do-while loop over positions 0, 20, 40, ... up to and
      including the length. */
  method SendMessage(w: Window, msg: string) returns (sent: seq<Fragment>)
    ensures sent == Fragments(w, Begin, msg)
  {
    hide Fragments, Padded;
    var pos := 0;
    var kind := Begin;
    var data8 := new char[SIZE];
    sent := [];
    assert msg[0..] == msg && [] + Fragments(w, Begin, msg) == Fragments(w, Begin, msg);
    while pos <= |msg|
      invariant 0 <= pos
      invariant Fragments(w, Begin, msg)
                == sent + if pos <= |msg| then Fragments(w, kind, msg[pos..]) else []
      decreases |msg| + SIZE - pos
    {
      FillData(data8, msg, pos);
      FragmentsStep(w, kind, msg, pos);
      ghost var rest := if pos + SIZE <= |msg| then Fragments(w, Continue, msg[pos + SIZE..]) else [];
      assert sent + ([Fragment(w, kind, data8[..])] + rest) == sent + [Fragment(w, kind, data8[..])] + rest;
      sent := sent + [Fragment(w, kind, data8[..])];
      kind := Continue;
      pos := pos + SIZE;
    }
    assert sent + [] == sent;
  }

  /** The fragments of several messages sent one after the other from one window. */
  function Stream(w: Window, msgs: seq<string>): seq<Fragment> {
    if msgs == [] then [] else Fragments(w, Begin, msgs[0]) + Stream(w, msgs[1..])
  }

  // ---------------------------------------------------------------- receiving

  /** The C string in a buffer: everything before the first zero byte. */
  function CString(s: seq<char>): string {
    if s == [] || s[0] == '\0' then [] else [s[0]] + CString(s[1..])
  }

  /** What the receiver holds for one window, and what it has delivered for it. */
  datatype Slot = Empty | Partial(text: string)

  datatype Step = Step(slot: Slot, out: seq<string>)

  /** One fragment at the slot of its window. */
  function Receive(slot: Slot, kind: Kind, data: seq<char>): Step {
    var buf := CString(data);
    if slot == Empty && kind == Continue then Step(Empty, []) // the beginning was missed
    else
      var text := (if slot.Partial? && kind == Continue then slot.text else "") + buf;
      if |buf| < SIZE then Step(Empty, [text]) else Step(Partial(text), [])
  }

  /** A receiver that sees only the fragments of one window. */
  function ReceiveAll(slot: Slot, fs: seq<Fragment>): Step
    decreases |fs|
  {
    if fs == [] then Step(slot, [])
    else
      var first := Receive(slot, fs[0].kind, fs[0].data);
      var rest := ReceiveAll(first.slot, fs[1..]);
      Step(rest.slot, first.out + rest.out)
  }

  /** The native event filter of KXMessages: partial messages of all windows. */
  class Receiver {
    var incoming: map<Window, string>
    ghost var delivered: seq<Delivery>

    constructor ()
      ensures incoming == map[] && delivered == []
    {
      incoming := map[];
      delivered := [];
    }

    ghost function Slots(): State
      reads this
    {
      State(incoming, delivered)
    }

    /** Returns the text to announce with gotMessage, if the fragment completes one. */
    method NativeEventFilter(window: Window, kind: Kind, data8: seq<char>) returns (got: seq<string>)
      modifies this
      ensures Slots() == Handle(old(Slots()), Fragment(window, kind, data8))
      ensures delivered == old(delivered) + Tagged(window, got)
    {
      hide CString, Tagged, WithSlot;
      got := [];
      ghost var was := incoming;
      TaggedFew(window);
      var buf := CString(data8);
      assert "" + buf == buf;
      if window in incoming {
        if kind == Begin {
          // a second beginning replaces what was there
          incoming := incoming[window := ""];
        }
        incoming := incoming[window := incoming[window] + buf];
      } else {
        if kind == Continue {
          SlotUnchanged(was, window);
          return; // the beginning was missed
        }
        incoming := incoming[window := buf];
      }
      SlotUpdated(was, window, incoming[window]);
      assert incoming == was[window := incoming[window]];
      if |buf| < SIZE { // only the last fragment is not full
        got := [incoming[window]];
        delivered := delivered + [Delivery(window, incoming[window])];
        incoming := incoming - {window};
      }
    }
  }

  lemma TaggedFew(w: Window)
    ensures Tagged(w, []) == [] && forall t: string :: Tagged(w, [t]) == [Delivery(w, t)]
  {
  }

  lemma SlotUnchanged(incoming: map<Window, string>, w: Window)
    requires w !in incoming
    ensures WithSlot(incoming, w, Empty) == incoming
  {
  }

  lemma SlotUpdated(incoming: map<Window, string>, w: Window, text: string)
    ensures WithSlot(incoming, w, Partial(text)) == incoming[w := text]
    ensures WithSlot(incoming, w, Empty) == incoming[w := text] - {w}
  {
  }

  /** The receiver's state as a value. */
  datatype State = State(incoming: map<Window, string>, delivered: seq<Delivery>)

  const START: State := State(map[], [])

  function SlotOf(incoming: map<Window, string>, w: Window): Slot {
    if w in incoming then Partial(incoming[w]) else Empty
  }

  function WithSlot(incoming: map<Window, string>, w: Window, slot: Slot): map<Window, string> {
    if slot.Partial? then incoming[w := slot.text] else incoming - {w}
  }

  function Tagged(w: Window, texts: seq<string>): seq<Delivery> {
    seq(|texts|, i requires 0 <= i < |texts| => Delivery(w, texts[i]))
  }

  function Handle(st: State, f: Fragment): State {
    var step := Receive(SlotOf(st.incoming, f.window), f.kind, f.data);
    State(WithSlot(st.incoming, f.window, step.slot), st.delivered + Tagged(f.window, step.out))
  }

  function HandleAll(st: State, fs: seq<Fragment>): State
    decreases |fs|
  {
    if fs == [] then st else HandleAll(Handle(st, fs[0]), fs[1..])
  }

  // ---------------------------------------------------------------- one window

  lemma {:induction false} CStringFacts(s: seq<char>)
    ensures |CString(s)| <= |s| && CString(s) == s[..|CString(s)|]
    ensures CString(s) == s <==> '\0' !in s
    ensures CString(CString(s)) == CString(s)
    ensures |CString(s)| < |s| ==> s[|CString(s)|] == '\0'
  {
    if s != [] {
      CStringFacts(s[1..]);
      if s[0] != '\0' {
        assert s == [s[0]] + s[1..];
        assert CString(s)[1..] == CString(s[1..]);
      }
    }
  }

  lemma Regroup(a: seq<char>, b: seq<char>, c: seq<char>)
    ensures (a + b) + c == a + (b + c)
  {
  }

  lemma CStringFirst(c: char, s: seq<char>)
    ensures CString([c] + s) == if c == '\0' then [] else [c] + CString(s)
  {
    assert ([c] + s)[1..] == s;
  }

  lemma {:induction false} CStringConcat(a: seq<char>, b: seq<char>)
    ensures CString(a + b) == if '\0' in a then CString(a) else a + CString(b)
  {
    if a == [] {
      assert a + b == b;
    } else {
      var c, t := a[0], a[1..];
      assert a == [c] + t;
      assert '\0' in a <==> c == '\0' || '\0' in t;
      hide CString;
      CStringConcat(t, b);
      CStringFirst(c, t);
      CStringFirst(c, t + b);
      Regroup([c], t, b);
      Regroup([c], t, CString(b));
    }
  }

  lemma CStringPadded(s: string)
    ensures CString(Padded(s)) == if |s| >= SIZE then CString(s[..SIZE]) else CString(s)
  {
    if |s| < SIZE {
      var z := Zeros(SIZE - |s|);
      assert z[0] == '\0' && CString(z) == [];
      hide CString, Zeros;
      CStringConcat(s, z);
      CStringFacts(s);
      assert s + [] == s;
    }
  }

  /** Fragments without a beginning leave an empty slot empty. */
  lemma {:induction false} TailIsDropped(w: Window, rest: string, more: seq<Fragment>)
    ensures ReceiveAll(Empty, Fragments(w, Continue, rest) + more) == ReceiveAll(Empty, more)
    decreases |rest|
  {
    var fs := Fragments(w, Continue, rest) + more;
    if |rest| < SIZE {
      assert fs[1..] == more;
    } else {
      assert fs[1..] == Fragments(w, Continue, rest[SIZE..]) + more;
      TailIsDropped(w, rest[SIZE..], more);
    }
    assert [] + ReceiveAll(Empty, more).out == ReceiveAll(Empty, more).out;
  }

  lemma ReceiveFirst(slot: Slot, f: Fragment, rest: seq<Fragment>)
    ensures var step := Receive(slot, f.kind, f.data);
            var r := ReceiveAll(step.slot, rest);
            ReceiveAll(slot, [f] + rest) == Step(r.slot, step.out + r.out)
  {
    hide Receive;
    assert ([f] + rest)[1..] == rest;
  }

  /** What the receiver does with the text of a fragment. */
  lemma ReceivedText(slot: Slot, kind: Kind, before: string, data: seq<char>)
    requires if kind == Begin then before == "" else slot == Partial(before)
    ensures var text := before + CString(data);
            Receive(slot, kind, data)
            == if |CString(data)| < SIZE then Step(Empty, [text]) else Step(Partial(text), [])
  {
    hide CString;
  }

  /** The text of one fragment: all that is left of the message, or 20 bytes of it. */
  lemma FragmentText(rest: string)
    ensures if |rest| < SIZE || '\0' in rest[..SIZE]
            then CString(Padded(rest)) == CString(rest) && |CString(rest)| < SIZE
            else CString(Padded(rest)) == rest[..SIZE]
  {
    hide CString, Padded;
    CStringPadded(rest);
    CStringFacts(rest);
    if |rest| >= SIZE {
      var head, tail := rest[..SIZE], rest[SIZE..];
      assert rest == head + tail;
      CStringFacts(head);
      CStringConcat(head, tail);
    }
  }

  /** One more fragment of a message whose beginning is stored. */
  lemma NextFragment(before: string, rest: string)
    ensures Receive(Partial(before), Continue, Padded(rest))
            == if |rest| < SIZE || '\0' in rest[..SIZE] then Step(Empty, [before + CString(rest)])
               else Step(Partial(before + rest[..SIZE]), [])
  {
    hide CString, Padded, Receive;
    FragmentText(rest);
    ReceivedText(Partial(before), Continue, before, Padded(rest));
  }

  lemma FragmentsFirst(w: Window, kind: Kind, rest: string, more: seq<Fragment>)
    ensures Fragments(w, kind, rest) + more
            == [Fragment(w, kind, Padded(rest))]
               + if |rest| < SIZE then more else Fragments(w, Continue, rest[SIZE..]) + more
  {
    hide Padded;
  }

  /** From the point where `before` has been stored, the fragments of the rest of a message
      deliver the message up to its first zero byte and leave the slot empty. */
  lemma {:induction false} RestIsDelivered(w: Window, before: string, rest: string, more: seq<Fragment>)
    ensures var r := ReceiveAll(Empty, more);
            ReceiveAll(Partial(before), Fragments(w, Continue, rest) + more)
            == Step(r.slot, [before + CString(rest)] + r.out)
    decreases |rest|
  {
    hide CString, Padded, Receive, ReceiveAll, Fragments;
    NextFragment(before, rest);
    FragmentsFirst(w, Continue, rest, more);
    if |rest| < SIZE {
      ReceiveFirst(Partial(before), Fragment(w, Continue, Padded(rest)), more);
    } else {
      var head := rest[..SIZE];
      var tail := rest[SIZE..];
      assert rest == head + tail;
      ReceiveFirst(Partial(before), Fragment(w, Continue, Padded(rest)), Fragments(w, Continue, tail) + more);
      if '\0' in head {
        TailIsDropped(w, tail, more);
      } else {
        CStringConcat(head, tail);
        RestIsDelivered(w, before + head, tail, more);
        Regroup(before, head, CString(tail));
        var r := ReceiveAll(Empty, more);
        assert [] + ([before + CString(rest)] + r.out) == [before + CString(rest)] + r.out;
      }
    }
  }

  lemma FirstFragment(slot: Slot, msg: string)
    ensures Receive(slot, Begin, Padded(msg))
            == if |msg| < SIZE || '\0' in msg[..SIZE] then Step(Empty, [CString(msg)])
               else Step(Partial(msg[..SIZE]), [])
  {
    hide CString, Padded, Receive;
    FragmentText(msg);
    ReceivedText(slot, Begin, "", Padded(msg));
    assert "" + CString(Padded(msg)) == CString(Padded(msg));
  }

  /** A whole message is delivered once, whatever the slot held before. */
  lemma MessageIsDelivered(w: Window, slot: Slot, msg: string, more: seq<Fragment>)
    ensures var r := ReceiveAll(Empty, more);
            ReceiveAll(slot, Fragments(w, Begin, msg) + more) == Step(r.slot, [CString(msg)] + r.out)
  {
    hide Receive, Padded, CString;
    var fs := Fragments(w, Begin, msg) + more;
    var r := ReceiveAll(Empty, more);
    FirstFragment(slot, msg);
    if |msg| < SIZE {
      assert fs[1..] == more;
    } else {
      var head := msg[..SIZE];
      var tail := msg[SIZE..];
      assert msg == head + tail;
      assert fs[1..] == Fragments(w, Continue, tail) + more;
      if '\0' in head {
        TailIsDropped(w, tail, more);
      } else {
        RestIsDelivered(w, head, tail, more);
        CStringConcat(head, tail);
        assert [] + ([CString(msg)] + r.out) == [CString(msg)] + r.out;
      }
    }
  }

  function CStrings(msgs: seq<string>): seq<string> {
    if msgs == [] then [] else [CString(msgs[0])] + CStrings(msgs[1..])
  }

  lemma {:induction false} StreamIsDelivered(w: Window, msgs: seq<string>)
    ensures ReceiveAll(Empty, Stream(w, msgs)) == Step(Empty, CStrings(msgs))
    decreases |msgs|
  {
    if msgs != [] {
      StreamIsDelivered(w, msgs[1..]);
      MessageIsDelivered(w, Empty, msgs[0], Stream(w, msgs[1..]));
    }
  }

  // ---------------------------------------------------------------- many windows

  /** The fragments of one window, in order. */
  function Of(fs: seq<Fragment>, w: Window): seq<Fragment> {
    if fs == [] then []
    else (if fs[0].window == w then [fs[0]] else []) + Of(fs[1..], w)
  }

  function TextsOf(ds: seq<Delivery>, w: Window): seq<string> {
    if ds == [] then []
    else (if ds[0].window == w then [ds[0].text] else []) + TextsOf(ds[1..], w)
  }

  lemma TextsOfFirst(d: Delivery, ds: seq<Delivery>, w: Window)
    ensures TextsOf([d] + ds, w) == (if d.window == w then [d.text] else []) + TextsOf(ds, w)
  {
    assert ([d] + ds)[1..] == ds;
  }

  lemma {:induction false} TextsOfConcat(a: seq<Delivery>, b: seq<Delivery>, w: Window)
    ensures TextsOf(a + b, w) == TextsOf(a, w) + TextsOf(b, w)
  {
    if a == [] {
      assert a + b == b;
    } else {
      var d, t := a[0], a[1..];
      assert a == [d] + t && a + b == [d] + (t + b);
      hide TextsOf;
      TextsOfConcat(t, b, w);
      TextsOfFirst(d, t, w);
      TextsOfFirst(d, t + b, w);
    }
  }

  lemma TextsOfTagged(v: Window, out: seq<string>, w: Window)
    requires |out| <= 1
    ensures TextsOf(Tagged(v, out), w) == if v == w then out else []
  {
    if |out| == 1 {
      assert Tagged(v, out)[1..] == [];
    }
  }

  /** One fragment, seen from the slot of one window. */
  lemma HandleAt(st: State, f: Fragment, w: Window)
    ensures var step := Receive(SlotOf(st.incoming, w), f.kind, f.data);
            var st1 := Handle(st, f);
            && SlotOf(st1.incoming, w) == (if f.window == w then step.slot else SlotOf(st.incoming, w))
            && TextsOf(st1.delivered, w)
               == TextsOf(st.delivered, w) + if f.window == w then step.out else []
  {
    var step := Receive(SlotOf(st.incoming, f.window), f.kind, f.data);
    TextsOfConcat(st.delivered, Tagged(f.window, step.out), w);
    TextsOfTagged(f.window, step.out, w);
  }

  /** Windows do not disturb one another: what happens at one window depends only on its own
      fragments, in every interleaving. */
  lemma {:induction false} WindowsAreIndependent(st: State, fs: seq<Fragment>, w: Window)
    ensures var r := ReceiveAll(SlotOf(st.incoming, w), Of(fs, w));
            var end := HandleAll(st, fs);
            && SlotOf(end.incoming, w) == r.slot
            && TextsOf(end.delivered, w) == TextsOf(st.delivered, w) + r.out
    decreases |fs|
  {
    hide Handle, Receive, SlotOf, TextsOf;
    if fs == [] {
      assert TextsOf(st.delivered, w) + [] == TextsOf(st.delivered, w);
    } else {
      var f := fs[0];
      HandleAt(st, f, w);
      WindowsAreIndependent(Handle(st, f), fs[1..], w);
      if f.window == w {
        assert Of(fs, w)[0] == f && Of(fs, w)[1..] == Of(fs[1..], w);
      } else {
        assert Of(fs, w) == Of(fs[1..], w);
        assert TextsOf(st.delivered, w) + [] == TextsOf(st.delivered, w);
      }
    }
  }

  /** What one window sends while the receiver watches: possibly the tail of a message whose
      beginning was missed, then whole messages. */
  ghost predicate Sends(fs: seq<Fragment>, w: Window, msgs: seq<string>) {
    || Of(fs, w) == Stream(w, msgs)
    || exists tail: string :: Of(fs, w) == Fragments(w, Continue, tail) + Stream(w, msgs)
  }

  /** Reassembly under interleaving. For every interleaving of the fragments of any number of
      windows, each window's messages are delivered in order, each exactly once and cut at
      its first zero byte; no partial message remains; and a tail whose beginning the
      receiver missed is dropped without disturbing the messages after it. */
  lemma Reassembly(fs: seq<Fragment>, msgs: map<Window, seq<string>>)
    requires forall f :: f in fs ==> f.window in msgs
    requires forall w :: w in msgs ==> Sends(fs, w, msgs[w])
    ensures forall w :: w in msgs ==> TextsOf(HandleAll(START, fs).delivered, w) == CStrings(msgs[w])
    ensures HandleAll(START, fs).incoming == map[]
  {
    var end := HandleAll(START, fs);
    forall w | w in msgs
      ensures TextsOf(end.delivered, w) == CStrings(msgs[w]) && w !in end.incoming
    {
      WindowsAreIndependent(START, fs, w);
      StreamIsDelivered(w, msgs[w]);
      if Of(fs, w) != Stream(w, msgs[w]) {
        var tail :| Of(fs, w) == Fragments(w, Continue, tail) + Stream(w, msgs[w]);
        TailIsDropped(w, tail, Stream(w, msgs[w]));
      }
      assert [] + CStrings(msgs[w]) == CStrings(msgs[w]);
    }
    OnlySendersAreStored(START, fs);
    assert forall w :: w in end.incoming ==> w in msgs;
  }

  lemma {:induction false} OnlySendersAreStored(st: State, fs: seq<Fragment>)
    ensures forall w :: w in HandleAll(st, fs).incoming
              ==> w in st.incoming || exists f :: f in fs && f.window == w
    decreases |fs|
  {
    if fs != [] {
      OnlySendersAreStored(Handle(st, fs[0]), fs[1..]);
      forall w | w in HandleAll(st, fs).incoming && w !in st.incoming
        ensures exists f :: f in fs && f.window == w
      {
        if w in Handle(st, fs[0]).incoming {
          assert fs[0] in fs && fs[0].window == w;
        } else {
          var f :| f in fs[1..] && f.window == w;
          assert f in fs;
        }
      }
    }
  }

  /** Messages arrive unchanged exactly when they hold no zero byte. */
  lemma {:induction false} UnchangedExactly(msgs: seq<string>)
    ensures CStrings(msgs) == msgs <==> forall m :: m in msgs ==> '\0' !in m
  {
    if msgs != [] {
      UnchangedExactly(msgs[1..]);
      CStringFacts(msgs[0]);
      assert CStrings(msgs)[0] == CString(msgs[0]) && CStrings(msgs)[1..] == CStrings(msgs[1..]);
      assert msgs == [msgs[0]] + msgs[1..];
    }
  }

  /** Every stored partial is a positive number of full fragments. */
  predicate Whole(incoming: map<Window, string>) {
    forall w :: w in incoming ==> |incoming[w]| > 0 && |incoming[w]| % SIZE == 0
  }

  /** In every reachable state, whatever fragments arrived, a stored partial message is a
      non-empty multiple of 20 bytes without a zero byte. */
  lemma {:induction false} PartialsAreWhole(st: State, fs: seq<Fragment>)
    requires Whole(st.incoming)
    requires forall w :: w in st.incoming ==> '\0' !in st.incoming[w]
    requires forall f :: f in fs ==> |f.data| == SIZE
    ensures Whole(HandleAll(st, fs).incoming)
    ensures forall w :: w in HandleAll(st, fs).incoming ==> '\0' !in HandleAll(st, fs).incoming[w]
    decreases |fs|
  {
    if fs != [] {
      var f := fs[0];
      assert f in fs;
      CStringFacts(f.data);
      CStringFacts(CString(f.data));
      PartialsAreWhole(Handle(st, f), fs[1..]);
    }
  }
}
