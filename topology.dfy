/**
 * Which layers the network has, which one is recurrent, and the names under
 * which their parameters and gradients are published.
 */
module Topology {

  /** The network's hyperparameters, with the fields the core reads. */
  datatype Hyperparams = Hyperparams(
    hiddenSize: nat,       // size of hidden layers
    hiddenLayers: nat,     // number of hidden layers
    recurrentLayer: int,   // 1-based hidden layer that gets recurrent connections
    bidirectional: bool,   // backward recurrence as well as forward
    inputSize: nat,        // dimension of an input column
    outputSize: nat,       // size of the softmax output
    batchSize: nat,        // size of dataset batches
    maxAct: real,          // activation clipping threshold (advisory)
    nl: string             // name of the nonlinearity
  )

  /** The declared defaults. */
  function Defaults(): Hyperparams {
    Hyperparams(1000, 5, 3, false, 34, 34, 128, 5.0, "relu")
  }

  /** The flags one layer is built with. */
  datatype LayerSpec = LayerSpec(fRecur: bool, bRecur: bool, softmax: bool)

  /**
   * The flags of layer `k`: hidden layer `recurrentLayer - 1` recurs forward,
   * and backward too when bidirectional; the layer after the hidden ones is
   * the softmax output layer and never recurs.
   */
  function LayerFlags(hps: Hyperparams, k: nat): LayerSpec {
    if k < hps.hiddenLayers then
      if k == hps.recurrentLayer - 1 then LayerSpec(true, hps.bidirectional, false)
      else LayerSpec(false, false, false)
    else LayerSpec(false, false, true)
  }

  /** `layer_specs`: the flags of the hidden layers, in order. */
  function LayerSpecs(hps: Hyperparams): seq<LayerSpec> {
    seq(hps.hiddenLayers, k requires 0 <= k < hps.hiddenLayers => LayerFlags(hps, k))
  }

  /** The indices of the hidden layers whose spec asks for recurrence in one direction. */
  function ForwardRecurrent(specs: seq<LayerSpec>): set<nat> {
    set k: nat | k < |specs| && specs[k].fRecur
  }

  function BackwardRecurrent(specs: seq<LayerSpec>): set<nat> {
    set k: nat | k < |specs| && specs[k].bRecur
  }

  /** 1 when the configured recurrent layer is one of the hidden layers, else 0. */
  function RecurrentCount(hps: Hyperparams): nat {
    if 1 <= hps.recurrentLayer <= hps.hiddenLayers then 1 else 0
  }

  /**
   * At most one hidden layer recurs: exactly layer `recurrentLayer - 1` when that
   * is a hidden layer, none otherwise; backward recurrence only there and only
   * when bidirectional.  No hidden layer is a softmax layer.
   */
  lemma RecurrentLayers(hps: Hyperparams)
    ensures |LayerSpecs(hps)| == hps.hiddenLayers
    ensures ForwardRecurrent(LayerSpecs(hps))
      == if RecurrentCount(hps) == 1 then {(hps.recurrentLayer - 1) as nat} else {}
    ensures BackwardRecurrent(LayerSpecs(hps))
      == if hps.bidirectional then ForwardRecurrent(LayerSpecs(hps)) else {}
    ensures |ForwardRecurrent(LayerSpecs(hps))| == RecurrentCount(hps)
    ensures forall k :: 0 <= k < hps.hiddenLayers ==> !LayerSpecs(hps)[k].softmax
  {
    var specs := LayerSpecs(hps);
    var f := ForwardRecurrent(specs);
    if RecurrentCount(hps) == 1 {
      var r := (hps.recurrentLayer - 1) as nat;
      assert specs[r].fRecur;
      assert f == {r};
    } else {
      assert f == {} by {
        forall k: nat | k in f ensures false {
          assert specs[k].fRecur;
        }
      }
    }
  }

  /** The default configuration has exactly one recurrent layer, the third, forward only. */
  lemma DefaultsTopology()
    ensures ForwardRecurrent(LayerSpecs(Defaults())) == {2}
    ensures BackwardRecurrent(LayerSpecs(Defaults())) == {}
  {
    RecurrentLayers(Defaults());
  }

  /** Rows of layer `k`'s input: the input size for the first hidden layer, the hidden size otherwise. */
  function InSize(hps: Hyperparams, k: nat): nat {
    if k == 0 && k < hps.hiddenLayers then hps.inputSize else hps.hiddenSize
  }

  /** Rows of layer `k`'s output: the hidden size, or the output size for the softmax layer. */
  function OutSize(hps: Hyperparams, k: nat): nat {
    if k < hps.hiddenLayers then hps.hiddenSize else hps.outputSize
  }

  // ---------------------------------------------------------------------
  // Parameter names

  /** The tensors a layer owns: weight, bias and the recurrent weights. */
  datatype Kind = Weight | Bias | ForwardRecur | BackwardRecur

  /** The tensors present on a layer built with the given flags. */
  function Kinds(spec: LayerSpec): set<Kind> {
    {Weight, Bias}
      + (if spec.fRecur then {ForwardRecur} else {})
      + (if spec.bRecur then {BackwardRecur} else {})
  }

  function DigitChar(d: nat): (c: char)
    requires d < 10
    ensures '0' <= c <= '9'
  {
    ('0' as int + d) as char
  }

  /** `'%d' % n` */
  function Decimal(n: nat): (s: string)
    ensures |s| >= 1
    ensures forall i :: 0 <= i < |s| ==> '0' <= s[i] <= '9'
    decreases n
  {
    if n < 10 then [DigitChar(n)] else Decimal(n / 10) + [DigitChar(n % 10)]
  }

  /** Distinct numbers print differently. */
  lemma {:induction false} DecimalInjective(m: nat, n: nat)
    requires Decimal(m) == Decimal(n)
    ensures m == n
    decreases m
  {
    if m < 10 && n < 10 {
      assert DigitChar(m) == Decimal(m)[0] == Decimal(n)[0] == DigitChar(n);
    } else if m >= 10 && n >= 10 {
      var dm, dn := Decimal(m), Decimal(n);
      assert dm[|dm| - 1] == DigitChar(m % 10);
      assert dn[|dn| - 1] == DigitChar(n % 10);
      assert Decimal(m / 10) == dm[..|dm| - 1] == dn[..|dn| - 1] == Decimal(n / 10);
      DecimalInjective(m / 10, n / 10);
    }
  }

  /** `'W%d' % k`, `'b%d' % k`, `'W%df' % k`, `'W%db' % k` */
  function ParamName(kind: Kind, k: nat): string {
    match kind
    case Weight => "W" + Decimal(k)
    case Bias => "b" + Decimal(k)
    case ForwardRecur => "W" + Decimal(k) + "f"
    case BackwardRecur => "W" + Decimal(k) + "b"
  }

  /** The naming scheme never gives two tensors the same name. */
  lemma ParamNameInjective(kind1: Kind, k1: nat, kind2: Kind, k2: nat)
    requires ParamName(kind1, k1) == ParamName(kind2, k2)
    ensures kind1 == kind2 && k1 == k2
  {
    var s1, s2 := ParamName(kind1, k1), ParamName(kind2, k2);
    var d1, d2 := Decimal(k1), Decimal(k2);
    assert s1[0] == s2[0];
    assert s1[|s1| - 1] == s2[|s2| - 1];
    assert kind1 == kind2 by {
      assert s1[|s1| - 1] == if kind1 == Weight || kind1 == Bias then d1[|d1| - 1]
        else if kind1 == ForwardRecur then 'f' else 'b';
      assert s2[|s2| - 1] == if kind2 == Weight || kind2 == Bias then d2[|d2| - 1]
        else if kind2 == ForwardRecur then 'f' else 'b';
    }
    match kind1
    case Weight =>
      assert d1 == s1[1..] == s2[1..] == d2;
      DecimalInjective(k1, k2);
    case Bias =>
      assert d1 == s1[1..] == s2[1..] == d2;
      DecimalInjective(k1, k2);
    case ForwardRecur =>
      assert d1 == s1[1..|s1| - 1] == s2[1..|s2| - 1] == d2;
      DecimalInjective(k1, k2);
    case BackwardRecur =>
      assert d1 == s1[1..|s1| - 1] == s2[1..|s2| - 1] == d2;
      DecimalInjective(k1, k2);
  }

  /**
   * A dictionary value: which layer's tensor, and which of its tensors.  The
   * parameter and gradient dictionaries hold references to the layers' own
   * arrays; a `Slot` is such a reference.
   */
  datatype Slot = Slot(layer: nat, kind: Kind)

  function SlotName(s: Slot): string {
    ParamName(s.kind, s.layer)
  }

  /** The tensors of layers `0 .. n-1` of a network built from `hps`. */
  function SlotsBelow(hps: Hyperparams, n: nat): set<Slot> {
    set k: nat, kind: Kind | k < n && kind in Kinds(LayerFlags(hps, k)) :: Slot(k, kind)
  }

  /** Every tensor of the network: layers `0 .. hiddenLayers`. */
  function AllSlots(hps: Hyperparams): set<Slot> {
    SlotsBelow(hps, hps.hiddenLayers + 1)
  }

  /** How many tensors layer `k` owns. */
  function KindCount(spec: LayerSpec): nat {
    2 + (if spec.fRecur then 1 else 0) + (if spec.bRecur then 1 else 0)
  }

  lemma KindsSize(spec: LayerSpec)
    ensures |Kinds(spec)| == KindCount(spec)
  {
    var base: set<Kind> := {Weight, Bias};
    assert |base| == 2;
    var withF := base + (if spec.fRecur then {ForwardRecur} else {});
    assert |withF| == 2 + (if spec.fRecur then 1 else 0);
    assert Kinds(spec) == withF + (if spec.bRecur then {BackwardRecur} else {});
  }

  /**
   * The network publishes two tensors per layer plus one per enabled
   * recurrent direction: `2 * (hiddenLayers + 1)` names, one more for forward
   * recurrence and one more for backward recurrence.
   */
  lemma {:induction false} SlotCount(hps: Hyperparams, n: nat)
    requires n <= hps.hiddenLayers + 1
    ensures |SlotsBelow(hps, n)| == 2 * n
      + (if 1 <= hps.recurrentLayer <= n && hps.recurrentLayer <= hps.hiddenLayers then
          (if hps.bidirectional then 2 else 1) else 0)
  {
    if n > 0 {
      var k := n - 1;
      var spec := LayerFlags(hps, k);
      var here := set kind: Kind | kind in Kinds(spec) :: Slot(k, kind);
      assert SlotsBelow(hps, n) == SlotsBelow(hps, k) + here;
      assert SlotsBelow(hps, k) !! here;
      assert |here| == |Kinds(spec)| by {
        SlotsOfLayerSize(k, Kinds(spec));
      }
      KindsSize(spec);
      SlotCount(hps, k);
    } else {
      assert SlotsBelow(hps, 0) == {};
    }
  }

  lemma SlotsOfLayerSize(k: nat, kinds: set<Kind>)
    ensures |set kind: Kind | kind in kinds :: Slot(k, kind)| == |kinds|
  {
    var image := set kind: Kind | kind in kinds :: Slot(k, kind);
    if kinds != {} {
      var x :| x in kinds;
      var rest := kinds - {x};
      SlotsOfLayerSize(k, rest);
      assert image == (set kind: Kind | kind in rest :: Slot(k, kind)) + {Slot(k, x)};
    } else {
      assert image == {};
    }
  }

  // ---------------------------------------------------------------------
  // The dictionaries `params` and `grads`

  /** The flags of every layer the network allocates: the hidden layers, then the softmax layer. */
  function NetSpecs(hps: Hyperparams): (specs: seq<LayerSpec>)
    ensures |specs| == hps.hiddenLayers + 1
    ensures forall k :: 0 <= k < |specs| ==> specs[k] == LayerFlags(hps, k)
  {
    LayerSpecs(hps) + [LayerSpec(false, false, true)]
  }

  /** The tensors of layers built with flags `specs`, layer `k` with `specs[k]`. */
  function SlotsOf(specs: seq<LayerSpec>): set<Slot> {
    set k: nat, kind: Kind | k < |specs| && kind in Kinds(specs[k]) :: Slot(k, kind)
  }

  /** Two tensors never share a name. */
  lemma SlotNamesInjective()
    ensures forall s1, s2 :: SlotName(s1) == SlotName(s2) ==> s1 == s2
  {
    forall s1, s2 | SlotName(s1) == SlotName(s2)
      ensures s1 == s2
    {
      ParamNameInjective(s1.kind, s1.layer, s2.kind, s2.layer);
    }
  }

  /** The dictionary that publishes each of `slots` under its name. */
  function Publish(slots: set<Slot>): (m: map<string, Slot>)
    ensures forall s :: s in slots ==> SlotName(s) in m && m[SlotName(s)] == s
    ensures forall name :: name in m ==> m[name] in slots && SlotName(m[name]) == name
  {
    SlotNamesInjective();
    map s | s in slots :: SlotName(s) := s
  }

  /** Publishing two sets of tensors is publishing their union. */
  lemma PublishUnion(a: set<Slot>, b: set<Slot>)
    ensures Publish(a) + Publish(b) == Publish(a + b)
  {
    SlotNamesInjective();
  }

  /** The dictionary that publishes every tensor of `specs` under its name. */
  function Published(specs: seq<LayerSpec>): map<string, Slot> {
    Publish(SlotsOf(specs))
  }

  /** The tensors of layer `k`, built with flags `spec`. */
  function LayerSlots(k: nat, spec: LayerSpec): set<Slot> {
    set kind | kind in Kinds(spec) :: Slot(k, kind)
  }

  /**
   * One pass of the loops of `alloc_params` and `alloc_grads`: layer `k`'s
   * weight and bias, then its recurrent weights when it has them.
   */
  function AddLayer(m: map<string, Slot>, k: nat, spec: LayerSpec): map<string, Slot> {
    var m1 := m[ParamName(Weight, k) := Slot(k, Weight)][ParamName(Bias, k) := Slot(k, Bias)];
    var m2 := if spec.fRecur then m1[ParamName(ForwardRecur, k) := Slot(k, ForwardRecur)] else m1;
    if spec.bRecur then m2[ParamName(BackwardRecur, k) := Slot(k, BackwardRecur)] else m2
  }

  /** One pass publishes exactly layer `k`'s tensors on top of what `m` held. */
  lemma AddLayerPublishes(m: map<string, Slot>, k: nat, spec: LayerSpec)
    ensures AddLayer(m, k, spec) == m + Publish(LayerSlots(k, spec))
  {
    AddLayerMerges(m, k, spec);
    LayerPublished(k, spec);
  }

  /** An update after a merge is an update of the right operand. */
  lemma MergeUpdate<K, V>(m: map<K, V>, n: map<K, V>, a: K, x: V)
    ensures (m + n)[a := x] == m + n[a := x]
  {
  }

  /** One pass writes the same entries over any dictionary. */
  lemma AddLayerMerges(m: map<string, Slot>, k: nat, spec: LayerSpec)
    ensures AddLayer(m, k, spec) == m + AddLayer(map[], k, spec)
  {
    var e: map<string, Slot> := map[];
    assert m == m + e;
    var wName, bName := ParamName(Weight, k), ParamName(Bias, k);
    var fName, rName := ParamName(ForwardRecur, k), ParamName(BackwardRecur, k);
    MergeUpdate(m, e, wName, Slot(k, Weight));
    var e1 := e[wName := Slot(k, Weight)];
    MergeUpdate(m, e1, bName, Slot(k, Bias));
    var e2 := e1[bName := Slot(k, Bias)];
    var e3 := if spec.fRecur then e2[fName := Slot(k, ForwardRecur)] else e2;
    if spec.fRecur {
      MergeUpdate(m, e2, fName, Slot(k, ForwardRecur));
    }
    if spec.bRecur {
      MergeUpdate(m, e3, rName, Slot(k, BackwardRecur));
    }
  }

  /** The entries one pass writes are layer `k`'s tensors under their names. */
  lemma LayerPublished(k: nat, spec: LayerSpec)
    ensures AddLayer(map[], k, spec) == Publish(LayerSlots(k, spec))
  {
    var a, p := AddLayer(map[], k, spec), Publish(LayerSlots(k, spec));
    forall name | name in a
      ensures name in p && p[name] == a[name]
    {
      assert a[name] in LayerSlots(k, spec) && SlotName(a[name]) == name;
    }
    forall name | name in p
      ensures name in a
    {
      var s := p[name];
      assert s.kind in Kinds(spec) && s.layer == k;
    }
  }

  /** Layers `0 .. n` hold the tensors of layers `0 .. n-1` and those of layer `n`. */
  lemma SlotsOfGrows(specs: seq<LayerSpec>, n: nat)
    requires n < |specs|
    ensures SlotsOf(specs[..n + 1]) == SlotsOf(specs[..n]) + LayerSlots(n, specs[n])
  {
    assert forall k :: 0 <= k < n ==> specs[..n + 1][k] == specs[..n][k];
    assert specs[..n + 1][n] == specs[n];
  }

  /** Adding layer `n` to the dictionary of layers `0 .. n-1` publishes layers `0 .. n`. */
  lemma PublishedGrows(specs: seq<LayerSpec>, n: nat)
    requires n < |specs|
    ensures AddLayer(Published(specs[..n]), n, specs[n]) == Published(specs[..n + 1])
  {
    AddLayerPublishes(Published(specs[..n]), n, specs[n]);
    SlotsOfGrows(specs, n);
    PublishUnion(SlotsOf(specs[..n]), LayerSlots(n, specs[n]));
  }

  /** Merging dictionaries is associative. */
  lemma MergeAssoc<K, V>(a: map<K, V>, b: map<K, V>, c: map<K, V>)
    ensures (a + b) + c == a + (b + c)
  {
  }

  /** Merging into an empty dictionary copies it. */
  lemma MergeEmpty<K, V>(m: map<K, V>)
    ensures map[] + m == m
  {
  }

  /** No layers publish nothing. */
  lemma PublishedNone(specs: seq<LayerSpec>)
    ensures Published(specs[..0]) == map[]
  {
    assert SlotsOf(specs[..0]) == {};
  }

  /** Adding layer `n` over a dictionary that already held `m` keeps `m` underneath. */
  lemma PublishedOver(m: map<string, Slot>, specs: seq<LayerSpec>, n: nat)
    requires n < |specs|
    ensures AddLayer(m + Published(specs[..n]), n, specs[n]) == m + Published(specs[..n + 1])
  {
    var p := Published(specs[..n]);
    AddLayerMerges(m + p, n, specs[n]);
    AddLayerMerges(p, n, specs[n]);
    PublishedGrows(specs, n);
    MergeAssoc(m, p, AddLayer(map[], n, specs[n]));
  }

  /**
   * The network's dictionary publishes exactly the names `W<k>` and `b<k>`
   * of every layer `k`, `W<k>f` of forward-recurrent layers and `W<k>b` of
   * backward-recurrent ones, each bound to that layer's tensor of that kind.
   */
  lemma PublishedNames(hps: Hyperparams, kind: Kind, k: nat)
    ensures ParamName(kind, k) in Published(NetSpecs(hps))
      <==> k <= hps.hiddenLayers && kind in Kinds(LayerFlags(hps, k))
    ensures ParamName(kind, k) in Published(NetSpecs(hps)) ==>
      Published(NetSpecs(hps))[ParamName(kind, k)] == Slot(k, kind)
  {
    var specs := NetSpecs(hps);
    var m := Published(specs);
    if ParamName(kind, k) in m {
      SlotNamesInjective();
      assert SlotName(Slot(k, kind)) == ParamName(kind, k);
      assert m[ParamName(kind, k)] == Slot(k, kind);
    }
    if k <= hps.hiddenLayers && kind in Kinds(LayerFlags(hps, k)) {
      assert Slot(k, kind) in SlotsOf(specs);
    }
  }
}
