/** `string_to_hash`: the identifier hash.

    A rolling fold over the code points of the identifier, starting from 0:
    each step computes `to_int32(to_int32(hash_val << 5) - hash_val + ord(char))`,
    i.e. 31 * acc + code under 32-bit wrap-around (the Java `String.hashCode`
    recurrence).  The result is Python's `abs` of the final accumulator, which
    never wraps, so it lies in [0, 2^31]. */
module StringHash {
  import opened Int32

  /** One pass of the loop body.  In Python `hash_val << 5` on an int is
      `hash_val * 32` (also for negative values). */
  function Step(acc: int, c: char): (r: int)
    ensures r == ToInt32(31 * acc + c as int)
  {
    var shifted := ToInt32(acc * 32);
    var next := shifted - acc + c as int;
    assert SameWord(next, 31 * acc + c as int) by {
      assert next - (31 * acc + c as int) == shifted - acc * 32;
    }
    ConversionsKeepWord(next);
    SameWordTrans(ToInt32(next), next, 31 * acc + c as int);
    ToInt32Unique(31 * acc + c as int, ToInt32(next));
    ToInt32(next)
  }

  /** The accumulator `hash_val` after the loop has consumed the first k
      characters of s. */
  function Acc(s: string, k: nat): (acc: int)
    requires k <= |s|
    ensures -TwoTo31 <= acc < TwoTo31
  {
    if k == 0 then 0 else Step(Acc(s, k - 1), s[k - 1])
  }

  /** `string_to_hash(s)`: the magnitude of the final accumulator.  The value
      2^31 occurs exactly when the accumulator ends at -2^31, whose `abs`
      Python computes without wrapping. */
  function Hash(s: string): (h: int)
    ensures 0 <= h <= TwoTo31
    ensures h == TwoTo31 <==> Acc(s, |s|) == -TwoTo31
    ensures h == Acc(s, |s|) || h == -Acc(s, |s|)
  {
    Abs(Acc(s, |s|))
  }

  /** kiki2test.py's `string_to_hash`: a loop that reassigns `hash_val`. */
  method StringToHash(s: string) returns (h: int)
    ensures h == Hash(s)
    ensures 0 <= h <= TwoTo31
  {
    var hashVal := 0;
    var i := 0;
    while i < |s|
      invariant 0 <= i <= |s|
      invariant hashVal == Acc(s, i)
    {
      var charCode := s[i] as int;
      var shifted := ToInt32(hashVal * 32);
      hashVal := ToInt32(shifted - hashVal + charCode);
      i := i + 1;
    }
    h := Abs(hashVal);
  }

  /** The hash polynomial without any wrap-around:
      code(s[0]) * 31^(k-1) + ... + code(s[k-1]). */
  function Polynomial(s: string, k: nat): int
    requires k <= |s|
  {
    if k == 0 then 0 else 31 * Polynomial(s, k - 1) + s[k - 1] as int
  }

  /** Wrapping after every step gives the same word as wrapping once at the
      end: the accumulator is the 32-bit signed reading of the polynomial. */
  lemma {:induction false} AccIsWrappedPolynomial(s: string, k: nat)
    requires k <= |s|
    ensures Acc(s, k) == ToInt32(Polynomial(s, k))
  {
    if k > 0 {
      AccIsWrappedPolynomial(s, k - 1);
      WrapStep(Acc(s, k - 1), Polynomial(s, k - 1), s[k - 1] as int);
    }
  }

  /** One more step of the polynomial, wrapped or not, leaves the same word. */
  lemma WrapStep(a: int, p: int, c: int)
    requires a == ToInt32(p)
    ensures ToInt32(31 * a + c) == ToInt32(31 * p + c)
  {
    ConversionsKeepWord(p);
    SameWordMul(31, a, 31, p);
    assert SameWord(31 * a + c, 31 * p + c);
    ConversionsKeepWord(31 * a + c);
    SameWordTrans(ToInt32(31 * a + c), 31 * a + c, 31 * p + c);
    ToInt32Unique(31 * p + c, ToInt32(31 * a + c));
  }

  /** The hash only depends on the characters consumed so far. */
  lemma {:induction false} AccOfPrefix(s: string, t: string, k: nat)
    requires k <= |s| && k <= |t| && s[..k] == t[..k]
    ensures Acc(s, k) == Acc(t, k)
  {
    if k > 0 {
      assert s[..k - 1] == s[..k][..k - 1] && t[..k - 1] == t[..k][..k - 1];
      AccOfPrefix(s, t, k - 1);
      assert s[k - 1] == s[..k][k - 1] && t[k - 1] == t[..k][k - 1];
    }
  }

  /** The empty identifier hashes to 0. */
  lemma HashOfEmpty()
    ensures Hash("") == 0
  {
  }
}
