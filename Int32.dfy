/** 32-bit integer emulation.

    The generator must reproduce a JavaScript front end, which performs every
    bitwise operation on 32-bit words.  The Python code emulates this with
    `ctypes.c_int32` / `ctypes.c_uint32` conversions and a hand-written
    `Math.imul`; this module models those conversions on unbounded integers,
    plus the `^` and `|` operators as the generator applies them to unsigned
    32-bit values. */
module Int32 {

  const TwoTo31: int := 0x8000_0000
  const TwoTo32: int := 0x1_0000_0000

  /** Python's `abs` on integers: never wraps. */
  function Abs(x: int): (r: nat)
    ensures r == x || r == -x
  {
    if x < 0 then -x else x
  }

  /** Two integers denote the same 32-bit word. */
  predicate SameWord(a: int, b: int)
  {
    (a - b) % TwoTo32 == 0
  }

  /** `ctypes.c_int32(v).value`: keep the low 32 bits, read them as two's complement. */
  function ToInt32(v: int): (r: int)
    ensures -TwoTo31 <= r < TwoTo31
  {
    var low := v % TwoTo32;
    if low < TwoTo31 then low else low - TwoTo32
  }

  /** `ctypes.c_uint32(v).value`: keep the low 32 bits, read them as unsigned. */
  function ToUint32(v: int): (r: int)
    ensures 0 <= r < TwoTo32
  {
    v % TwoTo32
  }

  /** Both conversions keep the word: the result differs from the input by
      a multiple of 2^32. */
  lemma ConversionsKeepWord(v: int)
    ensures SameWord(ToInt32(v), v) && SameWord(ToUint32(v), v)
  {
    var q := v / TwoTo32;
    assert v == q * TwoTo32 + ToUint32(v);
    assert ToUint32(v) - v == (-q) * TwoTo32;
    assert ToInt32(v) - v == (-q) * TwoTo32 || ToInt32(v) - v == (-q - 1) * TwoTo32;
  }

  /** `a - b` is a multiple of 2^32 exactly when both leave the same remainder. */
  lemma SameWordMod(a: int, b: int)
    ensures SameWord(a, b) <==> a % TwoTo32 == b % TwoTo32
  {
    var qa, qb := a / TwoTo32, b / TwoTo32;
    assert a == qa * TwoTo32 + a % TwoTo32;
    assert b == qb * TwoTo32 + b % TwoTo32;
    assert a - b == (qa - qb) * TwoTo32 + (a % TwoTo32 - b % TwoTo32);
    if a % TwoTo32 == b % TwoTo32 {
      assert a - b == (qa - qb) * TwoTo32;
    } else {
      var d := a % TwoTo32 - b % TwoTo32;
      assert -TwoTo32 < d < TwoTo32 && d != 0;
      var k := qa - qb;
      assert (k * TwoTo32 + d) % TwoTo32 == d % TwoTo32;
      assert d % TwoTo32 != 0;
    }
  }

  /** SameWord is an equivalence: symmetric and transitive. */
  lemma SameWordTrans(a: int, b: int, c: int)
    requires SameWord(a, b) && SameWord(b, c)
    ensures SameWord(a, c) && SameWord(c, a)
  {
    SameWordMod(a, b);
    SameWordMod(b, c);
    SameWordMod(a, c);
    SameWordMod(c, a);
  }

  /** Only one signed 32-bit value denotes a given word, so the contract of
      ToInt32 determines it. */
  lemma ToInt32Unique(v: int, r: int)
    requires -TwoTo31 <= r < TwoTo31 && SameWord(r, v)
    ensures r == ToInt32(v)
  {
    var w := ToInt32(v);
    ConversionsKeepWord(v);
    SameWordTrans(r, v, w);
    SameWordMod(r, w);
    var d := r - w;
    assert -TwoTo32 < d < TwoTo32;
    assert d % TwoTo32 == 0;
  }

  /** Only one unsigned 32-bit value denotes a given word. */
  lemma ToUint32Unique(v: int, r: int)
    requires 0 <= r < TwoTo32 && SameWord(r, v)
    ensures r == ToUint32(v)
  {
    SameWordMod(r, v);
  }

  /** Both conversions only look at the word: inputs 2^32 apart convert alike. */
  lemma ConversionsPeriodic(v: int, k: int)
    ensures ToInt32(v + k * TwoTo32) == ToInt32(v)
    ensures ToUint32(v + k * TwoTo32) == ToUint32(v)
  {
    assert SameWord(v + k * TwoTo32, v);
    ConversionsKeepWord(v);
    SameWordTrans(ToInt32(v), v, v + k * TwoTo32);
    ToInt32Unique(v + k * TwoTo32, ToInt32(v));
    SameWordTrans(ToUint32(v), v, v + k * TwoTo32);
    ToUint32Unique(v + k * TwoTo32, ToUint32(v));
  }

  /** `abs(to_int32(-v)) == abs(to_int32(v))`, including at -2^31, whose
      negation wraps back to itself. */
  lemma AbsToInt32Neg(v: int)
    ensures Abs(ToInt32(-v)) == Abs(ToInt32(v))
  {
    var r := ToInt32(v);
    ConversionsKeepWord(v);
    SameWordNeg(r, v);
    if r == -TwoTo31 {
      assert SameWord(r, -r);
      SameWordTrans(r, -r, -v);
      ToInt32Unique(-v, r);
    } else {
      ToInt32Unique(-v, -r);
    }
  }

  /** Negation keeps two integers on the same word. */
  lemma SameWordNeg(a: int, b: int)
    requires SameWord(a, b)
    ensures SameWord(-a, -b)
  {
    var k := (a - b) / TwoTo32;
    assert a - b == k * TwoTo32;
    assert -a - -b == (-k) * TwoTo32;
  }

  /** Products of words that denote the same words denote the same word. */
  lemma SameWordMul(a: int, b: int, a': int, b': int)
    requires SameWord(a, a') && SameWord(b, b')
    ensures SameWord(a * b, a' * b')
  {
    var k := (a - a') / TwoTo32;
    var l := (b - b') / TwoTo32;
    assert a == a' + k * TwoTo32;
    assert b == b' + l * TwoTo32;
    calc {
      a * b;
      (a' + k * TwoTo32) * (b' + l * TwoTo32);
      a' * b' + (k * b' + l * a' + k * l * TwoTo32) * TwoTo32;
    }
    var m := k * b' + l * a' + k * l * TwoTo32;
    assert a * b - a' * b' == m * TwoTo32;
  }

  /** `js_imul`, i.e. JavaScript's `Math.imul`: multiply the operands as
      unsigned 32-bit words, keep the low 32 bits (`& 0xFFFFFFFF`, a
      remainder on the non-negative product), read them back as signed. */
  function JsImul(a: int, b: int): (r: int)
    ensures -TwoTo31 <= r < TwoTo31
  {
    var ua := ToUint32(a);
    var ub := ToUint32(b);
    ToInt32((ua * ub) % TwoTo32)
  }

  /** Math.imul is the product of its operands, wrapped to a signed 32-bit
      value: the only one that denotes the same word as the exact product. */
  lemma JsImulIsWrappedProduct(a: int, b: int)
    ensures JsImul(a, b) == ToInt32(a * b)
    ensures SameWord(JsImul(a, b), a * b)
  {
    var ua := ToUint32(a);
    var ub := ToUint32(b);
    var low := (ua * ub) % TwoTo32;
    assert JsImul(a, b) == ToInt32(low);
    LowWordOfProduct(a, b, ua, ub, low);
    ConversionsKeepWord(low);
    SameWordTrans(ToInt32(low), low, a * b);
    ToInt32Unique(a * b, ToInt32(low));
  }

  /** The low word of the product of the operands' words is a word of the
      product of the operands. */
  lemma LowWordOfProduct(a: int, b: int, ua: int, ub: int, low: int)
    requires ua == ToUint32(a) && ub == ToUint32(b) && low == (ua * ub) % TwoTo32
    ensures SameWord(low, a * b)
  {
    ConversionsKeepWord(a);
    ConversionsKeepWord(b);
    SameWordMul(ua, ub, a, b);
    SameWordMod(low, ua * ub);
    SameWordTrans(low, ua * ub, a * b);
  }

  /** Math.imul is commutative. */
  lemma JsImulCommutes(a: int, b: int)
    ensures JsImul(a, b) == JsImul(b, a)
  {
    assert ToUint32(a) * ToUint32(b) == ToUint32(b) * ToUint32(a);
  }

  /** Math.imul only sees its operands modulo 2^32. */
  lemma JsImulWords(a: int, b: int, a': int, b': int)
    requires SameWord(a, a') && SameWord(b, b')
    ensures JsImul(a, b) == JsImul(a', b')
  {
    SameWordMod(a, a');
    SameWordMod(b, b');
  }

  /** The 32-bit word an unsigned value in [0, 2^32) is stored in. */
  function Word(x: int): bv32
    requires 0 <= x < TwoTo32
  {
    x as bv32
  }

  /** A word read as a number and stored again is the same word. */
  lemma WordRoundTrip(w: bv32)
    ensures 0 <= w as int < TwoTo32
    ensures Word(w as int) == w
  {
  }

  /** `a ^ b` on operands in [0, 2^32), computed on 32-bit words;
      BitwiseRange states its range. */
  function Xor(a: int, b: int): int
    requires 0 <= a < TwoTo32 && 0 <= b < TwoTo32
  {
    (Word(a) ^ Word(b)) as int
  }

  /** `a | b` on operands in [0, 2^32), computed on 32-bit words. */
  function Or(a: int, b: int): int
    requires 0 <= a < TwoTo32 && 0 <= b < TwoTo32
  {
    (Word(a) | Word(b)) as int
  }

  /** Xor agrees with the word operator on the stored words; with literal
      words this lets the verifier compute it. */
  lemma XorOnWords(x: int, y: int, a: bv32, b: bv32)
    requires 0 <= x < TwoTo32 && 0 <= y < TwoTo32
    requires Word(x) == a && Word(y) == b
    ensures Xor(x, y) == (a ^ b) as int
  {
  }

  /** Or agrees with the word operator on the stored words. */
  lemma OrOnWords(x: int, y: int, a: bv32, b: bv32)
    requires 0 <= x < TwoTo32 && 0 <= y < TwoTo32
    requires Word(x) == a && Word(y) == b
    ensures Or(x, y) == (a | b) as int
  {
  }

  /** `^` and `|` of two unsigned 32-bit values are unsigned 32-bit values. */
  lemma BitwiseRange(a: int, b: int)
    requires 0 <= a < TwoTo32 && 0 <= b < TwoTo32
    ensures 0 <= Xor(a, b) < TwoTo32 && 0 <= Or(a, b) < TwoTo32
  {
  }
}
