/** Fresh mints exist: counting up is one way to draw them. */
module MintStepIdsFresh {
  import opened JsText
  import opened CanonicalJson
  import opened MintStepIds
  import opened MintStepIdsProofs

  function Pow10(k: nat): (p: nat)
    ensures p >= 1
  {
    if k == 0 then 1 else 10 * Pow10(k - 1)
  }

  /** The last `k` decimal digits of a number. */
  function Digits(n: nat, k: nat): (s: JsString)
    ensures |s| == k && forall i :: 0 <= i < k ==> 0x30 <= s[i] <= 0x39
  {
    if k == 0 then [] else Digits(n / 10, k - 1) + [0x30 + n % 10]
  }

  lemma {:induction false} DigitsInjective(a: nat, b: nat, k: nat)
    requires a < Pow10(k) && b < Pow10(k) && Digits(a, k) == Digits(b, k)
    ensures a == b
  {
    if k > 0 {
      var p, q := Digits(a / 10, k - 1), Digits(b / 10, k - 1);
      assert p == Digits(a, k)[..k - 1] && q == Digits(b, k)[..k - 1];
      assert Digits(a, k)[k - 1] == Digits(b, k)[k - 1];
      DigitsInjective(a / 10, b / 10, k - 1);
    }
  }

  const PREFIX := Ascii("st_")

  function Counted(n: nat): JsString {
    PREFIX + Digits(n, 16)
  }

  lemma CountedIsStepId(n: nat)
    ensures IsStepId(Counted(n))
  {
    assert Counted(n)[..3] == PREFIX;
  }

  lemma CountedDiffer(m: nat, n: nat)
    requires m < n < Pow10(16)
    ensures Counted(m) != Counted(n)
  {
    if Counted(m) == Counted(n) {
      assert Counted(m)[3..] == Digits(m, 16) && Counted(n)[3..] == Digits(n, 16);
      DigitsInjective(m, n, 16);
    }
  }

  lemma {:induction false} MintsAtMostOneEach(mint: nat -> JsString, ids: seq<Value>, st: State)
    ensures Repair(mint, ids, st).1.next <= st.next + |ids|
  {
    if ids != [] {
      MintsAtMostOneEach(mint, ids[1..], MintId(mint, ids[0], st).1);
    }
  }

  /** Counting gives fresh mints for any tree and any seen ids that hold none of the counted ids. */
  lemma CountedMintsFresh(ids: seq<Value>, seen: set<JsString>)
    requires |ids| <= Pow10(16)
    requires forall n: nat :: n < |ids| ==> Counted(n) !in seen && Str(Counted(n)) !in ids
    ensures FreshMints(Counted, ids, State(seen, 0))
  {
    MintsAtMostOneEach(Counted, ids, State(seen, 0));
    forall n: nat | n < |ids| ensures IsStepId(Counted(n)) {
      CountedIsStepId(n);
    }
    forall m: nat, n: nat | m < n < |ids| ensures Counted(m) != Counted(n) {
      CountedDiffer(m, n);
    }
  }

  function EmptyStep(): Value {
    Obj([])
  }

  /** A loop around one step, neither of which has an id. */
  function Loop(): Value {
    Obj([Field(KIND, Str(FOR_EACH)), Field(STEPS, Arr([EmptyStep()]))])
  }

  lemma TwoFields(f: Field, g: Field, key: JsString)
    ensures KeyIndex([f, g], key) == if key == f.key then 0 else if key == g.key then 1 else 2
  {
    assert [f, g][1..] == [g];
    assert KeyIndex([g], key) == if key == g.key then 0 else 1 + KeyIndex([g][1..], key);
  }

  lemma LoopShape()
    ensures ShapeOf(Loop().fields) == Shape(Some(1), None, None) && Get(Loop().fields, ID) == Undefined
  {
    KeysDiffer();
    var f, g := Field(KIND, Str(FOR_EACH)), Field(STEPS, Arr([EmptyStep()]));
    TwoFields(f, g, KIND);
    TwoFields(f, g, STEPS);
    TwoFields(f, g, ID);
  }

  lemma EmptyHasOneId()
    ensures Ids(EmptyStep()) == [Undefined]
  {
    KeysDiffer();
    assert Get([], KIND) == Undefined && Get([], ID) == Undefined;
    assert ShapeOf([]) == Shape(None, None, None);
  }

  lemma IdsOfLoop(fields: seq<Field>, at: nat, items: seq<Value>)
    requires ShapeOf(fields) == Shape(Some(at), None, None) && fields[at].val == Arr(items)
    ensures Ids(Obj(fields)) == [Get(fields, ID)] + IdsOfList(items)
  {}

  lemma IdsOfOne(item: Value)
    ensures IdsOfList([item]) == Ids(item)
  {
    assert [item][1..] == [];
  }

  lemma IdsOfLoopAndStep(fields: seq<Field>, item: Value)
    requires ShapeOf(fields) == Shape(Some(1), None, None) && fields[1].val == Arr([item])
    requires Get(fields, ID) == Undefined && Ids(item) == [Undefined]
    ensures Ids(Obj(fields)) == [Undefined, Undefined]
  {
    IdsOfOne(item);
    IdsOfLoop(fields, 1, [item]);
  }

  lemma LoopHasTwoIds()
    ensures Ids(Loop()) == [Undefined, Undefined]
  {
    LoopShape();
    EmptyHasOneId();
    IdsOfLoopAndStep(Loop().fields, EmptyStep());
  }

  lemma TwoBelowPow10()
    ensures 2 < Pow10(16)
  {
    assert Pow10(16) == 10 * Pow10(15);
  }

  lemma CountedAreFree()
    ensures Counted(0) !in {Counted(2)} && Counted(1) !in {Counted(2)}
  {
    TwoBelowPow10();
    CountedDiffer(0, 2);
    CountedDiffer(1, 2);
  }

  lemma TwoMintsFresh(ids: seq<Value>)
    requires ids == [Undefined, Undefined]
    ensures FreshMints(Counted, ids, State({Counted(2)}, 0))
  {
    TwoBelowPow10();
    CountedAreFree();
    forall n: nat | n < 2 ensures Counted(n) !in {Counted(2)} && Str(Counted(n)) !in ids {
      assert n == 0 || n == 1;
    }
    CountedMintsFresh(ids, {Counted(2)});
  }

  /** A tree that needs repair, with an id already in use, is repaired. */
  lemma LoopIsRepaired()
    ensures FreshMints(Counted, Ids(Loop()), State({Counted(2)}, 0))
    ensures !ValidIds(Ids(Loop()), {Counted(2)})
    ensures var result := MintNode(Counted, Loop(), State({Counted(2)}, 0)).0;
      |Ids(result)| == 2 && ValidIds(Ids(result), {Counted(2)})
  {
    LoopHasTwoIds();
    TwoMintsFresh(Ids(Loop()));
    MintOnlyRepairs(Counted, Loop(), {Counted(2)});
  }
}
