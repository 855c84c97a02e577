/** The test scorer of lib/AlmostPerfectModel.py: it remembers the positives it was fitted on and
    scores by a 32-bit hash of the item (`mmh3.hash`, uninterpreted here), on a grid of 1000 steps. */
module AlmostPerfect {

  const DiscreteSize: int := 1000

  /** The score times DiscreteSize. Python's `%` with a positive modulus is never negative, as
      Dafny's is, so `h % 500` lies in [0, 500) for every hash. Members score in the upper half;
      a non-member scores in the upper half exactly when `h % 1000 < fp_rate * 1000`. */
  function Numerator(member: bool, fpRate: real, h: int): (n: int)
    ensures 0 <= n < DiscreteSize
    ensures member ==> DiscreteSize / 2 <= n
    ensures !member && (h % DiscreteSize) as real < fpRate * DiscreteSize as real ==> DiscreteSize / 2 <= n
    ensures !member && !((h % DiscreteSize) as real < fpRate * DiscreteSize as real) ==> n < DiscreteSize / 2
    ensures n % (DiscreteSize / 2) == h % (DiscreteSize / 2)
  {
    if member then
      h % (DiscreteSize / 2) + DiscreteSize / 2
    else if (h % DiscreteSize) as real < fpRate * DiscreteSize as real then
      h % (DiscreteSize / 2) + DiscreteSize / 2
    else
      h % (DiscreteSize / 2)
  }

  /** The set of `X[i]` labelled 1 among the first min(len(X), len(y)) items. */
  function LabelledPositives(X: seq<string>, y: seq<int>): (r: set<string>)
    ensures forall x :: x in r ==> x in X
    ensures forall i :: 0 <= i < |X| && i < |y| && y[i] == 1 ==> X[i] in r
  {
    set i | 0 <= i < |X| && i < |y| && y[i] == 1 :: X[i]
  }

  class AlmostPerfectModel {
    var table: set<string>
    const fpRate: real
    /** `mmh3.hash`. */
    const hash: string -> int

    constructor (fpRate: real, hash: string -> int)
      ensures table == {} && this.fpRate == fpRate && this.hash == hash
    {
      table := {};
      this.fpRate := fpRate;
      this.hash := hash;
    }

    /** `fit`: adds every item labelled 1 and never removes an entry. When `y` is shorter than `X`
        the access `y[i]` raises IndexError (`ok` false) after the first len(y) items were handled. */
    method Fit(X: seq<string>, y: seq<int>) returns (ok: bool)
      modifies this
      ensures ok <==> |X| <= |y|
      ensures table == old(table) + LabelledPositives(X, y)
    {
      var i := 0;
      while i < |X|
        invariant 0 <= i <= |X| && i <= |y|
        invariant table == old(table) + LabelledPositives(X[..i], y)
      {
        assert LabelledPositives(X[..i + 1], y) ==
          LabelledPositives(X[..i], y) + (if i < |y| && y[i] == 1 then {X[i]} else {});
        if i >= |y| {
          assert X[..i] == X[..|y|];
          assert LabelledPositives(X[..i], y) == LabelledPositives(X, y);
          return false;
        }
        if y[i] == 1 {
          table := table + {X[i]};
        }
        i := i + 1;
      }
      assert X[..i] == X;
      return true;
    }

    /** `predict`: a multiple of 1/1000 in [0, 1), determined by table membership and the hash. */
    function Predict(x: string): (r: real)
      reads this
      ensures 0.0 <= r < 1.0
      ensures (r * DiscreteSize as real).Floor as real == r * DiscreteSize as real
      ensures x in table ==> 0.5 <= r
      ensures x !in table && (hash(x) % DiscreteSize) as real < fpRate * DiscreteSize as real ==> 0.5 <= r
      ensures x !in table && !((hash(x) % DiscreteSize) as real < fpRate * DiscreteSize as real) ==> r < 0.5
    {
      Numerator(x in table, fpRate, hash(x)) as real / DiscreteSize as real
    }
  }
}
