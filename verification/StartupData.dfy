/** The data record of a startup notification (KStartupInfoData), its PID list, and the laws
    of merging one record into another. */
module StartupData {
  import opened Text

  datatype TriState = Yes | No | Unknown

  datatype Data = Data(
    bin: string,
    name: string,
    description: string,
    icon: string,
    desktop: int,
    pids: seq<int>,
    wmclass: string,
    hostname: string,
    silent: TriState,
    screen: int,
    xinerama: int,
    applicationId: string)

  const NO_DATA: Data := Data("", "", "", "", 0, [], "", "", Unknown, -1, -1, "")

  // ---------------------------------------------------------------- PID lists

  predicate Distinct(s: seq<int>) {
    forall i, j :: 0 <= i < j < |s| ==> s[i] != s[j]
  }

  /** KStartupInfoData::addPid. */
  function WithPid(pids: seq<int>, pid: int): (r: seq<int>)
    ensures pid in r && (Distinct(pids) ==> Distinct(r))
  {
    if pid in pids then pids else pids + [pid]
  }

  /** The PIDs of more, added one after the other. */
  function WithPids(pids: seq<int>, more: seq<int>): seq<int>
    decreases |more|
  {
    if more == [] then pids else WithPids(WithPid(pids, more[0]), more[1..])
  }

  /** QList::removeAll for one PID. */
  function WithoutPid(pids: seq<int>, pid: int): seq<int> {
    if pids == [] then []
    else (if pids[0] == pid then [] else [pids[0]]) + WithoutPid(pids[1..], pid)
  }

  /** The PIDs that gone does not name, in their order. */
  function Remaining(pids: seq<int>, gone: seq<int>): seq<int> {
    if pids == [] then []
    else (if pids[0] in gone then [] else [pids[0]]) + Remaining(pids[1..], gone)
  }

  lemma {:induction false} WithPidsStep(pids: seq<int>, more: seq<int>, k: nat)
    requires k < |more|
    ensures WithPids(pids, more[..k + 1]) == WithPid(WithPids(pids, more[..k]), more[k])
    decreases k
  {
    if k == 0 {
      assert more[..1][1..] == [] && more[..0] == [];
    } else {
      assert more[..k + 1][1..] == more[1..][..k] && more[..k][1..] == more[1..][..k - 1];
      WithPidsStep(WithPid(pids, more[0]), more[1..], k - 1);
    }
  }

  method AddPids(pids: seq<int>, more: seq<int>) returns (r: seq<int>)
    ensures r == WithPids(pids, more)
  {
    r := pids;
    var it := 0;
    while it != |more|
      invariant 0 <= it <= |more|
      invariant r == WithPids(pids, more[..it])
    {
      WithPidsStep(pids, more, it);
      if more[it] !in r {
        r := r + [more[it]];
      }
      it := it + 1;
    }
    assert more[..it] == more;
  }

  lemma {:induction false} WithoutPidIn(pids: seq<int>, pid: int, x: int)
    ensures x in WithoutPid(pids, pid) <==> x in pids && x != pid
  {
    if pids != [] {
      WithoutPidIn(pids[1..], pid, x);
    }
  }

  lemma {:induction false} RemainingStep(pids: seq<int>, gone: seq<int>, pid: int)
    ensures WithoutPid(Remaining(pids, gone), pid) == Remaining(pids, gone + [pid])
  {
    if pids != [] {
      RemainingStep(pids[1..], gone, pid);
      var head := if pids[0] in gone then [] else [pids[0]];
      var rest := Remaining(pids[1..], gone);
      if head != [] {
        assert (head + rest)[0] == pids[0] && (head + rest)[1..] == rest;
      } else {
        assert head + rest == rest;
      }
    }
  }

  lemma {:induction false} RemainingNone(pids: seq<int>)
    ensures Remaining(pids, []) == pids
  {
    if pids != [] {
      RemainingNone(pids[1..]);
    }
  }

  /** The loop of remove_startup_pids: one removeAll after the other. */
  method RemovePids(pids: seq<int>, gone: seq<int>) returns (r: seq<int>)
    ensures r == Remaining(pids, gone)
  {
    r := pids;
    RemainingNone(pids);
    var it := 0;
    while it != |gone|
      invariant 0 <= it <= |gone|
      invariant r == Remaining(pids, gone[..it])
    {
      RemainingStep(pids, gone[..it], gone[it]);
      assert gone[..it + 1] == gone[..it] + [gone[it]];
      r := WithoutPid(r, gone[it]);
      it := it + 1;
    }
    assert gone[..it] == gone;
  }

  /** x comes before y in s. */
  predicate Before(s: seq<int>, x: int, y: int) {
    exists i, j :: 0 <= i < j < |s| && s[i] == x && s[j] == y
  }

  /** Removing PIDs keeps exactly the others, in their order and without duplicates. */
  lemma {:induction false} RemainingExact(pids: seq<int>, gone: seq<int>)
    ensures forall x :: x in Remaining(pids, gone) <==> x in pids && x !in gone
    ensures Distinct(pids) ==> Distinct(Remaining(pids, gone))
    ensures forall x, y :: x !in gone && y !in gone
              ==> (Before(Remaining(pids, gone), x, y) <==> Before(pids, x, y))
  {
    if pids != [] {
      var t := pids[1..];
      RemainingExact(t, gone);
      var r := Remaining(t, gone);
      var s := Remaining(pids, gone);
      forall x, y | x !in gone && y !in gone
        ensures Before(s, x, y) <==> Before(pids, x, y)
      {
        BeforeTail(pids, x, y);
        if pids[0] in gone {
          assert s == r;
        } else {
          assert s[1..] == r && s[0] == pids[0];
          BeforeTail(s, x, y);
        }
      }
    }
  }

  lemma BeforeTail(s: seq<int>, x: int, y: int)
    requires s != []
    ensures Before(s, x, y) <==> Before(s[1..], x, y) || (s[0] == x && y in s[1..])
  {
    var t := s[1..];
    if Before(s, x, y) {
      var i, j :| 0 <= i < j < |s| && s[i] == x && s[j] == y;
      assert t[j - 1] == y;
      if i > 0 {
        assert t[i - 1] == x;
      }
    }
    if Before(t, x, y) {
      var i, j :| 0 <= i < j < |t| && t[i] == x && t[j] == y;
      assert s[i + 1] == x && s[j + 1] == y;
    }
    if s[0] == x && y in t {
      var j :| 0 <= j < |t| && t[j] == y;
      assert s[j + 1] == y;
    }
  }

  lemma {:induction false} WithPidsFacts(pids: seq<int>, more: seq<int>)
    ensures forall x :: x in WithPids(pids, more) <==> x in pids || x in more
    ensures Distinct(pids) ==> Distinct(WithPids(pids, more))
    ensures pids <= WithPids(pids, more)
    decreases |more|
  {
    if more != [] {
      WithPidsFacts(WithPid(pids, more[0]), more[1..]);
    }
  }

  lemma {:induction false} WithPidsConcat(pids: seq<int>, a: seq<int>, b: seq<int>)
    ensures WithPids(pids, a + b) == WithPids(WithPids(pids, a), b)
    decreases |a|
  {
    if a == [] {
      assert a + b == b;
    } else {
      assert (a + b)[0] == a[0] && (a + b)[1..] == a[1..] + b;
      WithPidsConcat(WithPid(pids, a[0]), a[1..], b);
    }
  }

  /** Adding a list that was itself built by adding is adding both lists. */
  lemma {:induction false} WithPidsAssoc(a: seq<int>, b: seq<int>, c: seq<int>)
    ensures WithPids(WithPids(a, b), c) == WithPids(a, WithPids(b, c))
    decreases |c|
  {
    if c != [] {
      WithPidsAssoc(a, WithPid(b, c[0]), c[1..]);
      if c[0] in b {
        WithPidsFacts(a, b);
      } else {
        WithPidsConcat(a, b, [c[0]]);
      }
    }
  }

  lemma {:induction false} WithPidsOwn(pids: seq<int>, more: seq<int>)
    requires Distinct(pids + more)
    ensures WithPids(pids, more) == pids + more
    decreases |more|
  {
    if more != [] {
      assert more[0] !in pids by {
        assert (pids + more)[|pids|] == more[0];
        assert forall i :: 0 <= i < |pids| ==> (pids + more)[i] == pids[i];
      }
      assert pids + [more[0]] + more[1..] == pids + more;
      WithPidsOwn(pids + [more[0]], more[1..]);
    } else {
      assert pids + more == pids;
    }
  }

  // ---------------------------------------------------------------- merging

  function FirstSet(a: string, b: string): string {
    if a != "" then a else b
  }

  function LastSet(a: string, b: string): string {
    if b != "" then b else a
  }

  /** KStartupInfoData::update: what a becomes when b is merged into it. */
  function Updated(a: Data, b: Data): Data {
    Data(
      LastSet(a.bin, b.bin),
      FirstSet(a.name, b.name),
      FirstSet(a.description, b.description),
      FirstSet(a.icon, b.icon),
      if a.desktop != 0 then a.desktop else b.desktop,
      WithPids(a.pids, b.pids),
      LastSet(a.wmclass, b.wmclass),
      LastSet(a.hostname, b.hostname),
      if b.silent != Unknown then b.silent else a.silent,
      if b.screen != -1 then b.screen else a.screen,
      if b.xinerama != -1 && a.xinerama != -1 then b.xinerama else a.xinerama,
      FirstSet(a.applicationId, b.applicationId))
  }

  method Update(a: Data, b: Data) returns (d: Data)
    ensures d == Updated(a, b)
  {
    var bin := LastSet(a.bin, b.bin);
    var name := FirstSet(a.name, b.name); // a name once set stays
    var description := FirstSet(a.description, b.description);
    var icon := FirstSet(a.icon, b.icon);
    var desktop := a.desktop;
    if b.desktop != 0 && a.desktop == 0 {
      desktop := b.desktop;
    }
    var wmclass := LastSet(a.wmclass, b.wmclass);
    var hostname := LastSet(a.hostname, b.hostname);
    var pids := AddPids(a.pids, b.pids);
    var silent := a.silent;
    if b.silent != Unknown {
      silent := b.silent;
    }
    var screen := a.screen;
    if b.screen != -1 {
      screen := b.screen;
    }
    var xinerama := a.xinerama;
    if b.xinerama != -1 && a.xinerama != -1 { // the one field with the opposite test
      xinerama := b.xinerama;
    }
    var applicationId := FirstSet(a.applicationId, b.applicationId);
    d := Data(bin, name, description, icon, desktop, pids, wmclass, hostname, silent, screen,
              xinerama, applicationId);
  }

  /** The record without the one field whose merge rule differs. */
  function NoXinerama(d: Data): Data {
    d.(xinerama := -1)
  }

  /** Merging is associative on every field but xinerama, and on xinerama exactly when the
      middle record does not hide a later change from the first. */
  lemma UpdateAssociative(a: Data, b: Data, c: Data)
    ensures NoXinerama(Updated(Updated(a, b), c)) == NoXinerama(Updated(a, Updated(b, c)))
    ensures Updated(Updated(a, b), c) == Updated(a, Updated(b, c))
            <==> !(a.xinerama != -1 && b.xinerama == -1 && c.xinerama != -1
                   && c.xinerama != a.xinerama)
  {
    WithPidsAssoc(a.pids, b.pids, c.pids);
  }

  /** Three records whose xinerama depends on the order of merging. */
  lemma XineramaNotAssociative()
    ensures var a, b, c := NO_DATA.(xinerama := 0), NO_DATA, NO_DATA.(xinerama := 1);
            Updated(Updated(a, b), c).xinerama == 1 && Updated(a, Updated(b, c)).xinerama == 0
  {
    hide WithPids;
  }

  /** A run of updates applied to one stored record. */
  function UpdatedAll(d: Data, us: seq<Data>): Data
    decreases |us|
  {
    if us == [] then d else UpdatedAll(Updated(d, us[0]), us[1..])
  }

  /** One record that has the effect of a whole run of updates. */
  function Combined(us: seq<Data>): Data
    requires us != []
  {
    if |us| == 1 then us[0] else Updated(us[0], Combined(us[1..]))
  }

  /** A run of updates can be sent as one: batching does not change the stored record. */
  lemma {:induction false} BatchingUpdates(d: Data, us: seq<Data>)
    requires us != []
    ensures NoXinerama(UpdatedAll(d, us)) == NoXinerama(Updated(d, Combined(us)))
    decreases |us|
  {
    if |us| == 1 {
      assert us[1..] == [];
    } else {
      BatchingUpdates(Updated(d, us[0]), us[1..]);
      UpdateAssociative(d, us[0], Combined(us[1..]));
    }
  }

  lemma {:induction false} UpdatedAllSnoc(d: Data, us: seq<Data>, u: Data)
    ensures UpdatedAll(d, us + [u]) == Updated(UpdatedAll(d, us), u)
    decreases |us|
  {
    if us == [] {
      assert us + [u] == [u] && [u][1..] == [];
    } else {
      assert (us + [u])[0] == us[0] && (us + [u])[1..] == us[1..] + [u];
      UpdatedAllSnoc(Updated(d, us[0]), us[1..], u);
    }
  }

  datatype Field =
    | Bin | Name | Description | Icon | Desktop | WmClass | Hostname | Silent | Screen | ApplicationId

  datatype Value = Unset | Text(text: string) | Number(number: int) | Silence(silence: TriState)

  function TextValue(s: string): Value {
    if s == "" then Unset else Text(s)
  }

  /** The value a record holds in a field, or Unset for the field's default. */
  function Get(d: Data, f: Field): Value {
    match f
    case Bin => TextValue(d.bin)
    case Name => TextValue(d.name)
    case Description => TextValue(d.description)
    case Icon => TextValue(d.icon)
    case Desktop => if d.desktop == 0 then Unset else Number(d.desktop)
    case WmClass => TextValue(d.wmclass)
    case Hostname => TextValue(d.hostname)
    case Silent => if d.silent == Unknown then Unset else Silence(d.silent)
    case Screen => if d.screen == -1 then Unset else Number(d.screen)
    case ApplicationId => TextValue(d.applicationId)
  }

  /** The fields whose first value stays; in the others the last value wins. */
  predicate FirstWins(f: Field) {
    f.Name? || f.Description? || f.Icon? || f.Desktop? || f.ApplicationId?
  }

  predicate FirstSetAt(us: seq<Data>, f: Field, v: Value, k: nat) {
    && k <= |us|
    && (forall i :: 0 <= i < k ==> Get(us[i], f) == Unset)
    && (if k < |us| then v == Get(us[k], f) && v != Unset else v == Unset)
  }

  predicate LastSetAt(us: seq<Data>, f: Field, v: Value, k: nat) {
    && k <= |us|
    && (forall i :: k <= i < |us| ==> Get(us[i], f) == Unset)
    && (if k > 0 then v == Get(us[k - 1], f) && v != Unset else v == Unset)
  }

  /** v is the value of the first message that sets f, or Unset when none does. */
  ghost predicate IsFirstSet(us: seq<Data>, f: Field, v: Value) {
    exists k: nat :: FirstSetAt(us, f, v, k)
  }

  /** v is the value of the last message that sets f, or Unset when none does. */
  ghost predicate IsLastSet(us: seq<Data>, f: Field, v: Value) {
    exists k: nat :: LastSetAt(us, f, v, k)
  }

  lemma IsFirstSetSnoc(us: seq<Data>, u: Data, f: Field, v: Value)
    requires IsFirstSet(us, f, v)
    ensures IsFirstSet(us + [u], f, if v != Unset then v else Get(u, f))
  {
    var k: nat :| FirstSetAt(us, f, v, k);
    var m := if k == |us| && Get(u, f) == Unset then |us| + 1 else k;
    assert FirstSetAt(us + [u], f, if v != Unset then v else Get(u, f), m);
  }

  lemma IsLastSetSnoc(us: seq<Data>, u: Data, f: Field, v: Value)
    requires IsLastSet(us, f, v)
    ensures IsLastSet(us + [u], f, if Get(u, f) != Unset then Get(u, f) else v)
  {
    var k: nat :| LastSetAt(us, f, v, k);
    var m := if Get(u, f) != Unset then |us| + 1 else k;
    assert LastSetAt(us + [u], f, if Get(u, f) != Unset then Get(u, f) else v, m);
  }

  lemma GetUpdated(a: Data, b: Data, f: Field)
    ensures Get(Updated(a, b), f)
            == if FirstWins(f)
               then (if Get(a, f) != Unset then Get(a, f) else Get(b, f))
               else (if Get(b, f) != Unset then Get(b, f) else Get(a, f))
  {
  }

  lemma UpdatedByLast(us: seq<Data>)
    requires |us| > 1
    ensures UpdatedAll(us[0], us[1..])
            == Updated(UpdatedAll(us[..|us| - 1][0], us[..|us| - 1][1..]), us[|us| - 1])
  {
    hide Updated;
    var n := |us| - 1;
    var vs := us[..n];
    assert us[1..] == vs[1..] + [us[n]];
    UpdatedAllSnoc(vs[0], vs[1..], us[n]);
  }

  lemma FieldOfOne(us: seq<Data>, f: Field)
    requires |us| == 1
    ensures IsFirstSet(us, f, Get(us[0], f)) && IsLastSet(us, f, Get(us[0], f))
  {
    hide Get;
    var v := Get(us[0], f);
    assert FirstSetAt(us, f, v, if v == Unset then 1 else 0);
    assert LastSetAt(us, f, v, if v == Unset then 0 else 1);
  }

  /** After any sequence of messages about one startup, the stored record (the first message,
      updated by the others) holds in every field the first value sent for it, or the last
      one, depending on the field. */
  lemma {:induction false} StoredField(us: seq<Data>, f: Field)
    requires us != []
    ensures FirstWins(f) ==> IsFirstSet(us, f, Get(UpdatedAll(us[0], us[1..]), f))
    ensures !FirstWins(f) ==> IsLastSet(us, f, Get(UpdatedAll(us[0], us[1..]), f))
    decreases |us|
  {
    var n := |us| - 1;
    if n == 0 {
      assert us[1..] == [];
      FieldOfOne(us, f);
    } else {
      hide Get, Updated, UpdatedAll, IsFirstSet, IsLastSet;
      var vs := us[..n];
      assert us == vs + [us[n]];
      StoredField(vs, f);
      UpdatedByLast(us);
      var d := UpdatedAll(vs[0], vs[1..]);
      GetUpdated(d, us[n], f);
      if FirstWins(f) {
        IsFirstSetSnoc(vs, us[n], f, Get(d, f));
      } else {
        IsLastSetSnoc(vs, us[n], f, Get(d, f));
      }
    }
  }

  /** The Xinerama screens that a sequence of messages sets, in order. */
  function Xineramas(us: seq<Data>): seq<int> {
    if us == [] then []
    else Xineramas(us[..|us| - 1]) + if us[|us| - 1].xinerama != -1 then [us[|us| - 1].xinerama] else []
  }

  /** The one field of its own kind: nothing is stored unless the first message sets it, and then
      the last value wins. */
  lemma {:induction false} StoredXinerama(us: seq<Data>)
    requires us != []
    ensures us[0].xinerama != -1 ==> Xineramas(us) != [] && Xineramas(us)[|Xineramas(us)| - 1] != -1
    ensures UpdatedAll(us[0], us[1..]).xinerama
            == if us[0].xinerama == -1 then -1 else Xineramas(us)[|Xineramas(us)| - 1]
    decreases |us|
  {
    var n := |us| - 1;
    if n == 0 {
      assert us[1..] == [] && us[..0] == [];
    } else {
      assert us[..n][0] == us[0];
      StoredXinerama(us[..n]);
      UpdatedByLast(us);
      hide WithPids;
    }
  }

  // ---------------------------------------------------------------- the stored PID list

  /** All PIDs that a sequence of messages mentions, in order. */
  function AllPids(us: seq<Data>): seq<int> {
    if us == [] then [] else us[0].pids + AllPids(us[1..])
  }

  function FirstIndex(s: seq<int>, x: int): (k: nat)
    ensures k <= |s| && (k < |s| ==> s[k] == x) && (x in s ==> k < |s|)
    ensures forall i :: 0 <= i < k ==> s[i] != x
  {
    if s == [] || s[0] == x then 0
    else
      var k := FirstIndex(s[1..], x);
      assert forall i :: 0 < i < k + 1 ==> s[i] == s[1..][i - 1];
      k + 1
  }

  lemma {:induction false} StoredPidsAre(d: Data, us: seq<Data>)
    ensures UpdatedAll(d, us).pids == WithPids(d.pids, AllPids(us))
    decreases |us|
  {
    if us != [] {
      StoredPidsAre(Updated(d, us[0]), us[1..]);
      WithPidsConcat(d.pids, us[0].pids, AllPids(us[1..]));
    }
  }

  lemma FirstIndexIs(s: seq<int>, x: int, k: nat)
    requires k < |s| && s[k] == x && forall i :: 0 <= i < k ==> s[i] != x
    ensures FirstIndex(s, x) == k
  {
    var a := FirstIndex(s, x);
    assert x in s;
    assert s[a] == x && !(a < k);
  }

  lemma FirstIndexSkips(pids: seq<int>, m: int, rest: seq<int>, x: int)
    requires m in pids && x in pids + rest
    ensures var a := FirstIndex(pids + rest, x);
            FirstIndex(pids + [m] + rest, x) == if a < |pids| then a else a + 1
  {
    var s := pids + rest;
    var t := pids + [m] + rest;
    var a := FirstIndex(s, x);
    if a < |pids| {
      assert forall i :: 0 <= i < a ==> t[i] == s[i];
      FirstIndexIs(t, x, a);
    } else {
      assert t[a + 1] == s[a];
      forall i | 0 <= i < a + 1 ensures t[i] != x {
        if i == |pids| {
          var j :| 0 <= j < |pids| && pids[j] == m;
          assert s[j] == m;
        } else {
          assert t[i] == s[if i < |pids| then i else i - 1];
        }
      }
      FirstIndexIs(t, x, a + 1);
    }
  }

  lemma BeforeIsFirstIndex(s: seq<int>, x: int, y: int)
    requires Distinct(s) && x in s && y in s
    ensures Before(s, x, y) <==> FirstIndex(s, x) < FirstIndex(s, y)
  {
    if Before(s, x, y) {
      var i, j :| 0 <= i < j < |s| && s[i] == x && s[j] == y;
      FirstIndexIs(s, x, i);
      FirstIndexIs(s, y, j);
    }
  }

  /** Adding PIDs lists every PID once, by its first appearance. */
  lemma {:induction false} WithPidsOrder(pids: seq<int>, more: seq<int>, x: int, y: int)
    requires Distinct(pids) && x in pids + more && y in pids + more
    ensures Before(WithPids(pids, more), x, y)
            <==> FirstIndex(pids + more, x) < FirstIndex(pids + more, y)
    decreases |more|
  {
    if more == [] {
      assert pids + more == pids;
      BeforeIsFirstIndex(pids, x, y);
    } else {
      var m := more[0];
      var rest := more[1..];
      assert pids + more == pids + [m] + rest;
      assert forall z :: z in pids + more ==> z in pids || z == m || z in rest;
      if m in pids {
        FirstIndexSkips(pids, m, rest, x);
        FirstIndexSkips(pids, m, rest, y);
      }
      WithPidsOrder(WithPid(pids, m), rest, x, y);
    }
  }

  /** The stored PID list names every PID of the messages once, in first-seen order. */
  lemma StoredPids(us: seq<Data>, x: int, y: int)
    requires us != [] && Distinct(us[0].pids)
    ensures var pids := UpdatedAll(us[0], us[1..]).pids;
            && Distinct(pids)
            && (x in pids <==> x in AllPids(us))
            && (x in pids && y in pids
                ==> (Before(pids, x, y) <==> FirstIndex(AllPids(us), x) < FirstIndex(AllPids(us), y)))
  {
    StoredPidsAre(us[0], us[1..]);
    WithPidsFacts(us[0].pids, AllPids(us[1..]));
    if x in AllPids(us) && y in AllPids(us) {
      WithPidsOrder(us[0].pids, AllPids(us[1..]), x, y);
    }
  }
}
