/**
 When re-pairing is exact: a condition on the kinds and lengths of the structures alone, necessary and sufficient for
 the walker to read every advertisement of that shape as it was announced.
 */
module AuracastShape {
  import opened Wrappers
  import opened Octets
  import opened AdStream
  import opened Auracast

  /** The kind of a structure and the length of its value. */
  datatype Shape = Shape(kind: byte, len: AdLength)

  type AdLength = n: nat | n <= 254

  function ShapesOf(es: seq<Entry>): seq<Shape> {
    seq(|es|, i requires 0 <= i < |es| => Shape(es[i].kind, |es[i].value|))
  }

  /** How many elements of the UUID array a structure of this shape fills. */
  function UuidFill(s: Shape): nat {
    if IsUuidList(s.kind) then s.len / 2 else if s.kind == AD_SERVICE_DATA_16 && s.len >= 2 then 1 else 0
  }

  function UuidFilled(ss: seq<Shape>): nat {
    if ss == [] then 0 else UuidFilled(ss[..|ss| - 1]) + UuidFill(ss[|ss| - 1])
  }

  function PayloadOf(s: Shape): seq<nat> {
    if s.kind == AD_SERVICE_DATA_16 && s.len >= 2 then [s.len - 2] else []
  }

  /** The lengths of the elements of the service-data array. */
  function Payloads(ss: seq<Shape>): seq<nat> {
    if ss == [] then [] else Payloads(ss[..|ss| - 1]) + PayloadOf(ss[|ss| - 1])
  }

  function KindsOf(ss: seq<Shape>): seq<byte> {
    seq(|ss|, i requires 0 <= i < |ss| => ss[i].kind)
  }

  type Slots = (nat, nat)

  /**
   The array elements, UUID and payload, that a 16-bit service-data structure fills; an empty payload teaches nothing.
   */
  function OwnOf(before: seq<Shape>, s: Shape): seq<Slots> {
    if s.kind == AD_SERVICE_DATA_16 && s.len >= 3 then [(UuidFilled(before), |Payloads(before)|)] else []
  }

  function OwnSlots(ss: seq<Shape>): seq<Slots> {
    if ss == [] then []
    else OwnSlots(ss[..|ss| - 1]) + OwnOf(ss[..|ss| - 1], ss[|ss| - 1])
  }

  /** The array elements the walker reads at a structure, unless there are none or the payload is empty. */
  function ReadOf(before: seq<byte>, kind: byte, uuids: nat, payloads: seq<nat>): seq<Slots> {
    var u, d := UuidSlots(before), DataSlots(before);
    if kind == AD_SERVICE_DATA_16 && u < uuids && d < |payloads| && payloads[d] > 0 then [(u, d)] else []
  }

  function ReadUpTo(kinds: seq<byte>, uuids: nat, payloads: seq<nat>, i: nat): seq<Slots>
    requires i <= |kinds|
  {
    if i == 0 then []
    else ReadUpTo(kinds, uuids, payloads, i - 1) + ReadOf(kinds[..i - 1], kinds[i - 1], uuids, payloads)
  }

  function ReadSlots(ss: seq<Shape>): seq<Slots> {
    ReadUpTo(KindsOf(ss), UuidFilled(ss), Payloads(ss), |ss|)
  }

  // ------------------------------------------ arrays as their shapes foretell

  /** Slots that exist in arrays of these sizes. */
  predicate Within(slots: seq<Slots>, l: Layer) {
    forall i :: 0 <= i < |slots| ==> slots[i].0 < |l.uuids| && slots[i].1 < |l.data|
  }

  /** What is learned from the array elements at these slots, in order. */
  function LearnAll(slots: seq<Slots>, l: Layer): Found
    requires Within(slots, l)
  {
    if slots == [] then Found(None, None)
    else
      var (u, d) := slots[|slots| - 1];
      Learn(LearnAll(slots[..|slots| - 1], l), l.uuids[u], l.data[d])
  }

  lemma {:induction false} UuidsInLength(v: seq<byte>)
    ensures |UuidsIn(v)| == |v| / 2
  {
    if |v| >= 2 { UuidsInLength(v[2..]); }
  }

  lemma {:induction false} ArraysHaveShape(es: seq<Entry>)
    ensures var l, ss := Synth(es), ShapesOf(es);
      && |l.uuids| == UuidFilled(ss) && |l.data| == |Payloads(ss)| && l.kinds == KindsOf(ss)
      && (forall d :: 0 <= d < |l.data| ==> |l.data[d]| == Payloads(ss)[d])
  {
    hide UuidsIn;
    if es != [] {
      var pre, e := es[..|es| - 1], es[|es| - 1];
      ArraysHaveShape(pre);
      UuidsInLength(e.value);
      assert ShapesOf(es)[..|es| - 1] == ShapesOf(pre);
    }
  }

  // ------------------------------------------------ both readings, by slots

  lemma LearnNothing(f: Found, uuid: u16)
    ensures Learn(f, uuid, []) == f
  {
  }

  lemma LearnSnoc(slots: seq<Slots>, s: Slots, l: Layer)
    requires Within(slots, l) && s.0 < |l.uuids| && s.1 < |l.data|
    ensures Within(slots + [s], l)
    ensures LearnAll(slots + [s], l) == Learn(LearnAll(slots, l), l.uuids[s.0], l.data[s.1])
  {
    hide Learn;
    assert (slots + [s])[..|slots|] == slots;
  }

  /** One structure of the walk learns from the slots it reads. */
  lemma StepLearns(slots: seq<Slots>, l: Layer, payloads: seq<nat>, kind: byte, before: seq<byte>)
    requires Within(slots, l) && |payloads| == |l.data| && forall d :: 0 <= d < |l.data| ==> |l.data[d]| == payloads[d]
    ensures var more := slots + ReadOf(before, kind, |l.uuids|, payloads);
      Within(more, l) && WalkStep(LearnAll(slots, l), kind, before, l) == LearnAll(more, l)
  {
    hide Learn, UuidSlots, DataSlots, LearnAll, Within;
    var u, d := UuidSlots(before), DataSlots(before);
    assert slots + [] == slots;
    if kind == AD_SERVICE_DATA_16 && u < |l.uuids| && d < |l.data| {
      if payloads[d] > 0 {
        LearnSnoc(slots, (u, d), l);
      } else {
        assert l.data[d] == [];
        LearnNothing(LearnAll(slots, l), l.uuids[u]);
      }
    }
  }

  /** The walk learns from the slots it reads. */
  lemma {:induction false} WalkLearns(l: Layer, payloads: seq<nat>, i: nat)
    requires i <= |l.kinds| && |payloads| == |l.data| && forall d :: 0 <= d < |l.data| ==> |l.data[d]| == payloads[d]
    ensures var slots := ReadUpTo(l.kinds, |l.uuids|, payloads, i);
      Within(slots, l) && WalkUpTo(l, i) == LearnAll(slots, l)
  {
    if i > 0 {
      hide Learn, WalkStep, ReadOf, LearnAll, Within;
      WalkLearns(l, payloads, i - 1);
      StepLearns(ReadUpTo(l.kinds, |l.uuids|, payloads, i - 1), l, payloads, l.kinds[i - 1], l.kinds[..i - 1]);
    }
  }

  lemma {:induction false} LearnGrows(slots: seq<Slots>, l: Layer, m: Layer)
    requires Within(slots, l) && l.uuids <= m.uuids && l.data <= m.data
    ensures Within(slots, m) && LearnAll(slots, l) == LearnAll(slots, m)
  {
    hide Learn;
    if slots != [] {
      LearnGrows(slots[..|slots| - 1], l, m);
    }
  }

  /** One structure read directly, from the slots it has just filled. */
  lemma DirectStepLearns(slots: seq<Slots>, before: Layer, l: Layer, e: Entry)
    requires l == Layer(before.kinds + [e.kind], before.uuids + UuidsOf(e), before.data + DataOf(e))
    requires Within(slots, before)
    ensures var own := if IsServiceData(e) && |e.value| >= 3 then [(|before.uuids|, |before.data|)] else [];
      Within(slots + own, l) && DirectStep(LearnAll(slots, before), e) == LearnAll(slots + own, l)
  {
    hide Learn, UuidsIn, FromLE16, LearnAll, Within;
    LearnGrows(slots, before, l);
    assert slots + [] == slots;
    if IsServiceData(e) {
      var u, d := |before.uuids|, |before.data|;
      assert l.uuids[u] == FromLE16(e.value[..2]) && l.data[d] == e.value[2..];
      if |e.value| >= 3 {
        LearnSnoc(slots, (u, d), l);
      } else {
        assert e.value[2..] == [];
        LearnNothing(LearnAll(slots, l), l.uuids[u]);
      }
    }
  }

  /** The direct reading learns from the slots the structures fill. */
  lemma {:induction false} DirectLearns(es: seq<Entry>)
    ensures var slots, l := OwnSlots(ShapesOf(es)), Synth(es);
      Within(slots, l) && Direct(es) == LearnAll(slots, l)
  {
    hide Learn, UuidsOf, DataOf, UuidFilled, Payloads, LearnAll, Within, DirectStep;
    if es == [] {
      NothingLearned(Synth([]));
    } else {
      var pre, e := es[..|es| - 1], es[|es| - 1];
      DirectLearns(pre);
      assert ShapesOf(es)[..|es| - 1] == ShapesOf(pre);
      ArraysHaveShape(pre);
      DirectStepLearns(OwnSlots(ShapesOf(pre)), Synth(pre), Synth(es), e);
    }
  }

  lemma NothingLearned(l: Layer)
    ensures Within([], l) && LearnAll([], l) == Found(None, None)
  {
  }

  lemma ReadingsBySlots(es: seq<Entry>)
    ensures var l, ss := Synth(es), ShapesOf(es);
      && Within(ReadSlots(ss), l) && Walk(l) == LearnAll(ReadSlots(ss), l)
      && Within(OwnSlots(ss), l) && Direct(es) == LearnAll(OwnSlots(ss), l)
  {
    hide LearnAll, WalkUpTo, Within;
    ArraysHaveShape(es);
    WalkLearns(Synth(es), Payloads(ShapesOf(es)), |es|);
    DirectLearns(es);
  }

  // ------------------------------------------------------- telltale contents

  /**
   Octet `j` of a value that marks UUID slot `u` as the feature service and payload `d` with a leading 1, from here on.
   */
  function MarkAt(s: Shape, u: int, d: int, j: nat): byte {
    if IsUuidList(s.kind) then if j == 2 * u then 0x56 else if j == 2 * u + 1 then 0x18 else 0
    else if s.kind != AD_SERVICE_DATA_16 then 0
    else if j == 0 && u == 0 then 0x56
    else if j == 1 && u == 0 then 0x18
    else if j == 2 && d == 0 then 1
    else 0
  }

  function MarkedEntry(s: Shape, u: int, d: int): (e: Entry)
    ensures e.kind == s.kind && |e.value| == s.len
    ensures forall j :: 0 <= j < s.len ==> e.value[j] == MarkAt(s, u, d, j)
  {
    Entry(s.kind, seq(s.len, j requires 0 <= j < s.len => MarkAt(s, u, d, j)))
  }

  function Marked(ss: seq<Shape>, u: nat, d: nat): seq<Entry> {
    if ss == [] then []
    else
      var pre := ss[..|ss| - 1];
      Marked(pre, u, d) + [MarkedEntry(ss[|ss| - 1], u - UuidFilled(pre), d - |Payloads(pre)|)]
  }

  lemma {:induction false} MarkedHasShape(ss: seq<Shape>, u: nat, d: nat)
    ensures ShapesOf(Marked(ss, u, d)) == ss
  {
    if ss != [] {
      MarkedHasShape(ss[..|ss| - 1], u, d);
      var es := Marked(ss, u, d);
      assert ShapesOf(es) == ShapesOf(Marked(ss[..|ss| - 1], u, d)) + [ss[|ss| - 1]];
    }
  }

  lemma {:induction false} UuidsInAt(v: seq<byte>, k: nat)
    requires 2 * k + 1 < |v|
    ensures k < |UuidsIn(v)| && UuidsIn(v)[k] == FromLE16([v[2 * k], v[2 * k + 1]])
  {
    if k == 0 {
      assert v[..2] == [v[0], v[1]];
    } else {
      UuidsInAt(v[2..], k - 1);
    }
  }

  /** The UUIDs of a marked structure are the feature service at offset `u` and zero elsewhere. */
  lemma MarkedUuids(s: Shape, u: int, d: int)
    ensures var us := UuidsOf(MarkedEntry(s, u, d));
      |us| == UuidFill(s) && forall k :: 0 <= k < |us| ==> us[k] == if k == u then PBA_UUID else 0
  {
    var e := MarkedEntry(s, u, d);
    if IsUuidList(s.kind) {
      UuidsInLength(e.value);
      forall k | 0 <= k < |UuidsIn(e.value)|
        ensures UuidsIn(e.value)[k] == if k == u then PBA_UUID else 0
      {
        UuidsInAt(e.value, k);
      }
    } else if IsServiceData(e) {
      assert e.value[..2] == [e.value[0], e.value[1]];
    }
  }

  /** In the arrays of marked contents only UUID `u` is the feature service and only payload `d` starts with 1. */
  predicate Telltale(l: Layer, u: nat, d: nat) {
    && (forall k :: 0 <= k < |l.uuids| ==> l.uuids[k] == if k == u then PBA_UUID else 0)
    && (forall k :: 0 <= k < |l.data| && l.data[k] != [] ==> l.data[k][0] == if k == d then 1 else 0)
  }

  lemma SynthSnoc(es: seq<Entry>, e: Entry)
    ensures var l := Synth(es);
      Synth(es + [e]) == Layer(l.kinds + [e.kind], l.uuids + UuidsOf(e), l.data + DataOf(e))
  {
    hide UuidsOf, DataOf;
    assert (es + [e])[..|es|] == es;
  }

  lemma MarkedSizes(ss: seq<Shape>, u: nat, d: nat)
    ensures |Synth(Marked(ss, u, d)).uuids| == UuidFilled(ss) && |Synth(Marked(ss, u, d)).data| == |Payloads(ss)|
  {
    hide Marked, Synth;
    MarkedHasShape(ss, u, d);
    ArraysHaveShape(Marked(ss, u, d));
  }

  lemma NothingTells(u: nat, d: nat)
    ensures Telltale(Synth([]), u, d)
  {
  }

  lemma {:induction false} MarkedIsTelltale(ss: seq<Shape>, u: nat, d: nat)
    ensures Telltale(Synth(Marked(ss, u, d)), u, d)
  {
    hide Telltale, UuidsOf, DataOf, MarkedEntry, Synth, ShapesOf, UuidFilled, UuidFill, Payloads;
    NothingTells(u, d);
    if ss != [] {
      var pre, s := ss[..|ss| - 1], ss[|ss| - 1];
      MarkedIsTelltale(pre, u, d);
      MarkedSizes(pre, u, d);
      var v, w := u - UuidFilled(pre), d - |Payloads(pre)|;
      var e := MarkedEntry(s, v, w);
      MarkedUuids(s, v, w);
      MarkedPayload(s, v, w);
      SynthSnoc(Marked(pre, u, d), e);
      TelltaleGrows(Synth(Marked(pre, u, d)), e.kind, UuidsOf(e), DataOf(e), u, d);
    }
  }

  lemma TelltaleGrows(l: Layer, kind: byte, us: seq<u16>, vs: seq<seq<byte>>, u: nat, d: nat)
    requires Telltale(l, u, d) && |vs| <= 1
    requires forall k :: 0 <= k < |us| ==> us[k] == if k == u - |l.uuids| then PBA_UUID else 0
    requires forall v :: v in vs && v != [] ==> v[0] == if d - |l.data| == 0 then 1 else 0
    ensures Telltale(Layer(l.kinds + [kind], l.uuids + us, l.data + vs), u, d)
  {
  }

  lemma MarkedPayload(s: Shape, u: int, d: int)
    ensures forall v :: v in DataOf(MarkedEntry(s, u, d)) && v != [] ==> v[0] == if d == 0 then 1 else 0
    ensures |DataOf(MarkedEntry(s, u, d))| <= 1
  {
    hide MarkedEntry;
    if s.kind == AD_SERVICE_DATA_16 && s.len >= 3 {
      assert MarkedEntry(s, u, d).value[2..][0] == MarkAt(s, u, d, 2);
    }
  }

  /** Later slots have later UUIDs. */
  predicate Increasing(slots: seq<Slots>) {
    forall i, j :: 0 <= i < j < |slots| ==> slots[i].0 < slots[j].0
  }

  /** On telltale contents the feature octet 1 is learned exactly when UUID `u` is paired with payload `d`. */
  lemma {:induction false} TelltaleTells(slots: seq<Slots>, l: Layer, u: nat, d: nat)
    requires Within(slots, l) && Increasing(slots) && Telltale(l, u, d)
    requires forall i :: 0 <= i < |slots| ==> l.data[slots[i].1] != []
    ensures var f := LearnAll(slots, l).features;
      && (f == None <==> forall i :: 0 <= i < |slots| ==> slots[i].0 != u)
      && (f == Some(1) <==> (u, d) in slots)
  {
    if slots != [] {
      var pre, last := slots[..|slots| - 1], slots[|slots| - 1];
      TelltaleTells(pre, l, u, d);
      assert forall s :: s in slots <==> s in pre || s == last;
      assert forall i :: 0 <= i < |pre| ==> slots[i] == pre[i] && slots[i].0 < last.0;
    }
  }

  lemma {:induction false} ReadIncreases(kinds: seq<byte>, uuids: nat, payloads: seq<nat>, i: nat)
    requires i <= |kinds|
    ensures var slots := ReadUpTo(kinds, uuids, payloads, i);
      Increasing(slots) && forall k :: 0 <= k < |slots| ==>
        slots[k].0 < UuidSlots(kinds[..i]) && slots[k].1 < |payloads| && payloads[slots[k].1] > 0
  {
    if i > 0 {
      ReadIncreases(kinds, uuids, payloads, i - 1);
      assert kinds[..i][..i - 1] == kinds[..i - 1];
    }
  }

  lemma PayloadsSnoc(ss: seq<Shape>)
    requires ss != []
    ensures Payloads(ss) == Payloads(ss[..|ss| - 1]) + PayloadOf(ss[|ss| - 1])
  {
  }

  lemma {:induction false} OwnIncreases(ss: seq<Shape>)
    ensures OwnGood(OwnSlots(ss), UuidFilled(ss), Payloads(ss))
  {
    hide Payloads, OwnGood;
    if ss == [] {
      NoSlotsGood(UuidFilled(ss), Payloads(ss));
    } else {
      var pre := ss[..|ss| - 1];
      OwnIncreases(pre);
      PayloadsSnoc(ss);
      assert OwnSlots(pre) + [] == OwnSlots(pre);
      OwnGoodGrows(OwnSlots(pre), UuidFilled(pre), Payloads(pre), UuidFill(ss[|ss| - 1]), PayloadOf(ss[|ss| - 1]));
    }
  }

  /** Increasing slots of non-empty payloads, inside arrays of these sizes. */
  predicate OwnGood(slots: seq<Slots>, uuids: nat, payloads: seq<nat>) {
    && Increasing(slots)
    && forall k :: 0 <= k < |slots| ==> slots[k].0 < uuids && slots[k].1 < |payloads| && payloads[slots[k].1] > 0
  }

  lemma NoSlotsGood(uuids: nat, payloads: seq<nat>)
    ensures OwnGood([], uuids, payloads)
  {
  }

  lemma OwnGoodGrows(slots: seq<Slots>, uuids: nat, payloads: seq<nat>, more: nat, payload: seq<nat>)
    requires OwnGood(slots, uuids, payloads) && |payload| <= 1
    ensures OwnGood(slots, uuids + more, payloads + payload)
    ensures more == 1 && payload != [] && payload[0] > 0 ==>
      OwnGood(slots + [(uuids, |payloads|)], uuids + more, payloads + payload)
  {
    assert forall k :: 0 <= k < |slots| ==> (payloads + payload)[slots[k].1] == payloads[slots[k].1];
  }

  lemma SomeMember(b: seq<Slots>)
    ensures b != [] ==> exists s :: s in b
  {
    if b != [] { assert b[0] in b; }
  }

  lemma {:induction false} IncreasingSame(a: seq<Slots>, b: seq<Slots>)
    requires Increasing(a) && Increasing(b) && forall s :: s in a <==> s in b
    ensures a == b
    decreases |a|
  {
    if a == [] {
      SomeMember(b);
    } else {
      var m, n := |a| - 1, |b| - 1;
      assert a[m] in b && b[n] in a;
      assert a[m] == b[n];
      assert forall s :: s in a[..m] <==> s in a && s != a[m];
      assert forall s :: s in b[..n] <==> s in b && s != b[n];
      IncreasingSame(a[..m], b[..n]);
      assert a == a[..m] + [a[m]] && b == b[..n] + [b[n]];
    }
  }

  // --------------------------------------------------- the exact condition

  /** The walker reads every structure's own array elements, up to empty payloads. */
  predicate Exact(ss: seq<Shape>) {
    ReadSlots(ss) == OwnSlots(ss)
  }

  /** Marked contents tell whether the walk and the direct reading pair UUID `u` with payload `d` alike. */
  lemma MarkedComparison(ss: seq<Shape>, u: nat, d: nat)
    requires Walk(Synth(Marked(ss, u, d))) == Direct(Marked(ss, u, d))
    ensures (u, d) in ReadSlots(ss) <==> (u, d) in OwnSlots(ss)
  {
    hide LearnAll, Telltale, Increasing, OwnSlots, ReadUpTo, Marked, Walk;
    var es := Marked(ss, u, d);
    MarkedHasShape(ss, u, d);
    MarkedIsTelltale(ss, u, d);
    ArraysHaveShape(es);
    ReadingsBySlots(es);
    ReadIncreases(KindsOf(ss), UuidFilled(ss), Payloads(ss), |ss|);
    OwnIncreases(ss);
    TelltaleTells(ReadSlots(ss), Synth(es), u, d);
    TelltaleTells(OwnSlots(ss), Synth(es), u, d);
  }

  /**
   Whatever the contents, advertisements of a shape are read as announced, exactly when the walker reads the
   structures' own array elements.
   */
  lemma WalkIsDirectExactly(ss: seq<Shape>)
    ensures (forall es :: ShapesOf(es) == ss ==> Walk(Synth(es)) == Direct(es)) <==> Exact(ss)
  {
    hide Walk, Synth, Direct, LearnAll, ReadUpTo, OwnSlots;
    if Exact(ss) {
      forall es | ShapesOf(es) == ss
        ensures Walk(Synth(es)) == Direct(es)
      {
        ReadingsBySlots(es);
      }
    }
    if forall es :: ShapesOf(es) == ss ==> Walk(Synth(es)) == Direct(es) {
      forall s: Slots
        ensures s in ReadSlots(ss) <==> s in OwnSlots(ss)
      {
        MarkedHasShape(ss, s.0, s.1);
        MarkedComparison(ss, s.0, s.1);
      }
      ReadIncreases(KindsOf(ss), UuidFilled(ss), Payloads(ss), |ss|);
      OwnIncreases(ss);
      IncreasingSame(ReadSlots(ss), OwnSlots(ss));
    }
  }

  lemma PayloadsGrow(ss: seq<Shape>, i: nat)
    requires i < |ss| && ss[i].kind == AD_SERVICE_DATA_16 && ss[i].len >= 2
    ensures UuidFilled(ss[..i]) < UuidFilled(ss) && |Payloads(ss[..i])| < |Payloads(ss)|
    ensures Payloads(ss)[|Payloads(ss[..i])|] == ss[i].len - 2
    decreases |ss|
  {
    var pre := ss[..|ss| - 1];
    if i < |ss| - 1 {
      PayloadsGrow(pre, i);
      assert pre[..i] == ss[..i];
    }
  }

  /** At an aligned structure the walker reads the slots the structure fills. */
  lemma AlignedReads(es: seq<Entry>, i: nat)
    requires i < |es| && (es[i].kind == AD_SERVICE_DATA_16 ==> AlignedAt(es, i))
    ensures var ss := ShapesOf(es);
      ReadOf(KindsOf(ss)[..i], ss[i].kind, UuidFilled(ss), Payloads(ss)) == OwnOf(ss[..i], ss[i])
  {
    hide UuidSlots, DataSlots, UuidFilled, Payloads, Synth;
    var ss := ShapesOf(es);
    if es[i].kind == AD_SERVICE_DATA_16 {
      ArraysHaveShape(es[..i]);
      assert ShapesOf(es[..i]) == ss[..i] && KindsOf(ss)[..i] == Kinds(es[..i]);
      PayloadsGrow(ss, i);
    }
  }

  /** Alignment, counted structure by structure, is enough. */
  lemma AlignedIsExact(es: seq<Entry>)
    requires Aligned(es)
    ensures Exact(ShapesOf(es))
  {
    var ss := ShapesOf(es);
    AlignedReadsUpTo(es, |es|);
    assert ss[..|ss|] == ss;
  }

  lemma {:induction false} AlignedReadsUpTo(es: seq<Entry>, i: nat)
    requires Aligned(es) && i <= |es|
    ensures var ss := ShapesOf(es);
      ReadUpTo(KindsOf(ss), UuidFilled(ss), Payloads(ss), i) == OwnSlots(ss[..i])
  {
    hide AlignedAt, UuidFilled, Payloads;
    if i > 0 {
      var ss := ShapesOf(es);
      AlignedReadsUpTo(es, i - 1);
      AlignedReads(es, i - 1);
      assert ss[..i][..i - 1] == ss[..i - 1];
    }
  }

  // ------------------------------------------------- from octets to broadcast

  lemma ExactReads(es: seq<Entry>)
    requires Exact(ShapesOf(es))
    ensures Walk(Synth(es)) == Direct(es)
  {
    WalkIsDirectExactly(ShapesOf(es));
  }

  /** An advertisement of exact shape, padded or not, is read as it was announced. */
  lemma BytesToBroadcast(es: seq<Entry>, padding: seq<byte>)
    requires Exact(ShapesOf(es)) && (padding == [] || padding[0] == 0)
    ensures Walk(Synth(ParseAd(Serialise(es) + padding))) == Direct(es)
  {
    RoundTripPadded(es, padding);
    ExactReads(es);
  }

  /**
   On structures of exact shape a broadcast is reported exactly when one is announced or when the announcement UUID
   occurs somewhere beside an unrelated three-octet payload; an announced one is reported exactly.
   */
  lemma ReportsExactly(es: seq<Entry>)
    requires Exact(ShapesOf(es))
    ensures Direct(es).broadcastId.Some? ==>
      Parse(Synth(es)).Some? && Parse(Synth(es)).value.broadcastId == Direct(es).broadcastId.value
    ensures Parse(Synth(es)).Some? ==>
      var info := Parse(Synth(es)).value;
      && info.features == Direct(es).features
      && (info.encrypted <==> info.features.Some? && info.features.value % 2 == 1)
      && (Direct(es).broadcastId.None? ==> Some(info.broadcastId) == FirstTriple(Synth(es).data))
    ensures Parse(Synth(es)).Some? <==>
      Direct(es).broadcastId.Some? || (BAA_UUID in Synth(es).uuids && exists d :: d in Synth(es).data && |d| == 3)
  {
    ExactReads(es);
    if Direct(es).broadcastId.Some? {
      DirectNeedsUuid(es);
    }
    TripleExists(Synth(es).data);
  }

  // --------------------------------------------- service data without a list

  /** Service data with 16-bit UUIDs is all that fills or counts for an array element. */
  predicate NoListNoWide(ss: seq<Shape>) {
    forall s :: s in ss ==> s.kind == AD_SERVICE_DATA_16 || (!TakesUuid(s.kind) && !TakesData(s.kind))
  }

  /** The same slot in both arrays, for every payload that is not empty. */
  function Diagonal(payloads: seq<nat>, n: nat): seq<Slots>
    requires n <= |payloads|
  {
    if n == 0 then [] else Diagonal(payloads, n - 1) + if payloads[n - 1] > 0 then [(n - 1, n - 1)] else []
  }

  lemma {:induction false} DiagonalOfMore(payloads: seq<nat>, more: seq<nat>, n: nat)
    requires n <= |payloads|
    ensures Diagonal(payloads + more, n) == Diagonal(payloads, n)
  {
    if n > 0 { DiagonalOfMore(payloads, more, n - 1); }
  }

  lemma {:induction false} OwnDiagonal(ss: seq<Shape>)
    requires NoListNoWide(ss)
    ensures OwnSlots(ss) == Diagonal(Payloads(ss), |Payloads(ss)|) && UuidFilled(ss) == |Payloads(ss)|
  {
    if ss != [] {
      var pre, s := ss[..|ss| - 1], ss[|ss| - 1];
      OwnDiagonal(pre);
      DiagonalOfMore(Payloads(pre), PayloadOf(s), |Payloads(pre)|);
    }
  }

  lemma {:induction false} SlotsRunTogether(ss: seq<Shape>, i: nat)
    requires NoListNoWide(ss) && i <= |ss|
    ensures UuidSlots(KindsOf(ss)[..i]) == DataSlots(KindsOf(ss)[..i])
  {
    if i > 0 {
      SlotsRunTogether(ss, i - 1);
      assert KindsOf(ss)[..i][..i - 1] == KindsOf(ss)[..i - 1] && ss[i - 1] in ss;
    }
  }

  lemma OneMoreSlot(before: seq<byte>, kind: byte)
    ensures UuidSlots(before + [kind]) == UuidSlots(before) + if TakesUuid(kind) then 1 else 0
  {
    assert (before + [kind])[..|before|] == before;
  }

  /** What the walker has read after `u` service-data structures. */
  function Met(payloads: seq<nat>, u: nat): seq<Slots> {
    Diagonal(payloads, if u < |payloads| then u else |payloads|)
  }

  lemma MetNext(payloads: seq<nat>, u: nat)
    ensures Met(payloads, u + 1) == Met(payloads, u) + if u < |payloads| && payloads[u] > 0 then [(u, u)] else []
  {
  }

  lemma {:induction false} ReadDiagonal(ss: seq<Shape>, i: nat)
    requires NoListNoWide(ss) && i <= |ss|
    ensures ReadUpTo(KindsOf(ss), |Payloads(ss)|, Payloads(ss), i) == Met(Payloads(ss), UuidSlots(KindsOf(ss)[..i]))
  {
    hide Payloads, DataSlots, UuidSlots, Met, Diagonal;
    if i == 0 {
      NothingMet(Payloads(ss));
      assert KindsOf(ss)[..0] == [];
    } else {
      var before, kind := KindsOf(ss)[..i - 1], KindsOf(ss)[i - 1];
      ReadDiagonal(ss, i - 1);
      SlotsRunTogether(ss, i - 1);
      assert KindsOf(ss)[..i] == before + [kind] && ss[i - 1] in ss;
      OneMoreSlot(before, kind);
      MetNext(Payloads(ss), UuidSlots(before));
    }
  }

  lemma NothingMet(payloads: seq<nat>)
    ensures Met(payloads, UuidSlots([])) == []
  {
  }

  lemma {:induction false} NoMorePayloadsThanSlots(ss: seq<Shape>)
    requires NoListNoWide(ss)
    ensures |Payloads(ss)| <= UuidSlots(KindsOf(ss))
  {
    if ss != [] {
      NoMorePayloadsThanSlots(ss[..|ss| - 1]);
      assert KindsOf(ss)[..|ss| - 1] == KindsOf(ss[..|ss| - 1]);
    }
  }

  /** Short service data without UUID lists, solicitations or wide UUIDs is no harm: it shifts both arrays alike. */
  lemma ShortDataAloneIsExact(ss: seq<Shape>)
    requires NoListNoWide(ss)
    ensures Exact(ss)
  {
    OwnDiagonal(ss);
    ReadDiagonal(ss, |ss|);
    NoMorePayloadsThanSlots(ss);
    assert KindsOf(ss)[..|ss|] == KindsOf(ss);
  }
}
