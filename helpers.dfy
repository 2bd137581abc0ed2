/** The value types and hooks that the examples define for themselves: a
    price that embeds itself as a field, a user that marshals itself as an
    object, a list of users that marshals itself as an array, and two hooks.
    This module holds their data and the fields they contribute; the methods
    that write those fields into an event live beside the event. */
module Helpers {
  import opened Record
  import opened Levels

  const U64: nat := 0x1_0000_0000_0000_0000

  /** An unsigned 64-bit integer. */
  type UInt64 = n: nat | n < U64

  /** A price: val in units of 10^-prec of `unit`. */
  datatype Price = Price(val: UInt64, prec: int, unit: string)

  /** A user.  `created` is the text the time encoder produced for the
      creation time; time formatting is not part of this model. */
  datatype User = User(name: string, age: int, created: string)

  /** The values that know how to write themselves as an object. */
  datatype ObjectMarshaler = PriceObject(p: Price) | UserObject(u: User)

  /** The hooks: one adds the level's name, one adds the message text. */
  datatype Hook = LevelNameHook | MessageHook(text: string)

  // ---------------------------------------------------------------------
  // Hooks

  /** The fields one run of hook h adds to an event at level l whose message
      is msg. */
  function HookFields(h: Hook, l: Level, msg: string): seq<Entry>
  {
    match h
    case LevelNameHook => [Entry("level_name", Str(if l != NoLevel then Name(l) else "NoLevel"))]
    case MessageHook(_) => [Entry("the_message", Str(msg))]
  }

  /** The fields a list of hooks adds, run in registration order. */
  function HooksFields(hs: seq<Hook>, l: Level, msg: string): seq<Entry>
    decreases |hs|
  {
    if hs == [] then []
    else HooksFields(hs[..|hs| - 1], l, msg) + HookFields(hs[|hs| - 1], l, msg)
  }

  /** Each hook adds exactly one field, so hooks contribute one field each,
      in registration order. */
  lemma {:induction false} HooksFieldsAt(hs: seq<Hook>, l: Level, msg: string)
    ensures |HooksFields(hs, l, msg)| == |hs|
    ensures forall i | 0 <= i < |hs| :: HooksFields(hs, l, msg)[i] == HookFields(hs[i], l, msg)[0]
    decreases |hs|
  {
    if hs != [] {
      HooksFieldsAt(hs[..|hs| - 1], l, msg);
    }
  }

  /** Hooks registered later contribute their fields after those of the
      hooks registered before them. */
  lemma {:induction false} HooksFieldsAppend(a: seq<Hook>, b: seq<Hook>, l: Level, msg: string)
    ensures HooksFields(a + b, l, msg) == HooksFields(a, l, msg) + HooksFields(b, l, msg)
    decreases |b|
  {
    if b == [] {
      assert a + b == a;
    } else {
      var n := |b| - 1;
      assert (a + b)[..|a + b| - 1] == a + b[..n];
      HooksFieldsAppend(a, b[..n], l, msg);
    }
  }

  lemma HooksFieldsAppendAll(a: seq<Hook>, b: seq<Hook>)
    ensures forall l, msg :: HooksFields(a + b, l, msg) == HooksFields(a, l, msg) + HooksFields(b, l, msg)
  {
    forall l, msg ensures HooksFields(a + b, l, msg) == HooksFields(a, l, msg) + HooksFields(b, l, msg) {
      HooksFieldsAppend(a, b, l, msg);
    }
  }

  /** A hook never writes the message field, so it cannot alter or
      suppress the message.  This holds of the two hooks the examples
      define (Hook is a closed set of them); an arbitrary hook could add a
      "message" field of its own. */
  lemma HooksAvoidMessage(hs: seq<Hook>, l: Level, msg: string)
    ensures MessageFieldName !in Keys(HooksFields(hs, l, msg))
  {
    HooksFieldsAt(hs, l, msg);
    forall i | 0 <= i < |hs| ensures HooksFields(hs, l, msg)[i].key != MessageFieldName {
    }
  }

  // ---------------------------------------------------------------------
  // Users

  /** The fields a user writes: name, age, then creation time. */
  function UserFields(u: User): seq<Entry>
  {
    [Entry("name", Str(u.name)), Entry("age", Int(u.age)), Entry("created", Str(u.created))]
  }

  /** The array a list of users writes: one object per user, in order. */
  function UsersValues(uu: seq<User>): seq<Value>
    decreases |uu|
  {
    if uu == [] then [] else UsersValues(uu[..|uu| - 1]) + [Obj(UserFields(uu[|uu| - 1]))]
  }

  lemma {:induction false} UsersValuesAt(uu: seq<User>)
    ensures |UsersValues(uu)| == |uu|
    ensures forall i | 0 <= i < |uu| :: UsersValues(uu)[i] == Obj(UserFields(uu[i]))
    decreases |uu|
  {
    if uu != [] {
      UsersValuesAt(uu[..|uu| - 1]);
    }
  }

  // ---------------------------------------------------------------------
  // Decimal text

  function Digit(d: nat): char
    requires d < 10
  {
    (48 + d) as char
  }

  /** The decimal text of n, as the %d verb writes an unsigned integer. */
  function Decimal(n: nat): string
    decreases n
  {
    if n < 10 then [Digit(n)] else Decimal(n / 10) + [Digit(n % 10)]
  }

  predicate IsDigits(s: string)
  {
    forall i | 0 <= i < |s| :: '0' <= s[i] <= '9'
  }

  /** The number a string of decimal digits denotes. */
  function DigitsValue(s: string): nat
    requires IsDigits(s)
    decreases |s|
  {
    if s == [] then 0 else DigitsValue(s[..|s| - 1]) * 10 + (s[|s| - 1] as int - 48)
  }

  function Pow10(k: nat): (r: nat)
    ensures r >= 1
    decreases k
  {
    if k == 0 then 1 else 10 * Pow10(k - 1)
  }

  function Zeros(k: nat): string
    decreases k
  {
    if k == 0 then "" else "0" + Zeros(k - 1)
  }

  /** s, padded on the left with zeros to at least w characters. */
  function PadLeft(s: string, w: int): string
  {
    if |s| >= w then s else Zeros(w - |s|) + s
  }

  /** Decimal text reads back as the number it was made from. */
  lemma {:induction false} DecimalRoundTrip(n: nat)
    ensures IsDigits(Decimal(n)) && DigitsValue(Decimal(n)) == n
    decreases n
  {
    if n >= 10 {
      DecimalRoundTrip(n / 10);
      var s := Decimal(n);
      assert s[..|s| - 1] == Decimal(n / 10);
    }
  }

  /** A number below 10^k has at most k digits. */
  lemma {:induction false} DecimalLength(n: nat, k: nat)
    requires k >= 1 && n < Pow10(k)
    ensures |Decimal(n)| <= k
    decreases n
  {
    if n >= 10 {
      assert k >= 2;
      assert n / 10 < Pow10(k - 1);
      DecimalLength(n / 10, k - 1);
    }
  }

  /** Reading a concatenation of digit strings. */
  lemma {:induction false} DigitsValueConcat(a: string, b: string)
    requires IsDigits(a) && IsDigits(b)
    ensures IsDigits(a + b)
    ensures DigitsValue(a + b) == DigitsValue(a) * Pow10(|b|) + DigitsValue(b)
    decreases |b|
  {
    if b == [] {
      assert a + b == a;
    } else {
      var n := |b| - 1;
      var b' := b[..n];
      var ab := a + b;
      assert IsDigits(b');
      DigitsValueConcat(a, b');
      assert ab[..|ab| - 1] == a + b';
      assert ab[|ab| - 1] == b[n];
      ShiftDigit(DigitsValue(a), DigitsValue(b'), Pow10(n), b[n] as int - 48);
    }
  }

  lemma ShiftDigit(va: int, vb: int, p: int, d: int)
    ensures (va * p + vb) * 10 + d == va * (10 * p) + (vb * 10 + d)
  {
  }

  lemma {:induction false} ZerosValue(k: nat)
    ensures |Zeros(k)| == k && IsDigits(Zeros(k)) && DigitsValue(Zeros(k)) == 0
    decreases k
  {
    if k > 0 {
      ZerosValue(k - 1);
      DigitsValueConcat("0", Zeros(k - 1));
    }
  }

  /** Left zero padding keeps the number a digit string denotes. */
  lemma PadLeftValue(s: string, w: int)
    requires IsDigits(s)
    ensures IsDigits(PadLeft(s, w)) && DigitsValue(PadLeft(s, w)) == DigitsValue(s)
    ensures |PadLeft(s, w)| == if |s| >= w then |s| else w
  {
    if |s| < w {
      ZerosValue(w - |s|);
      DigitsValueConcat(Zeros(w - |s|), s);
    }
  }

  // ---------------------------------------------------------------------
  // Price

  /** The denominator the price loop computes: 10 multiplied in prec times,
      in uint64 arithmetic (so it wraps once 10^prec reaches 2^64). */
  function Denominator(prec: int): UInt64
    decreases if prec <= 0 then 0 else prec
  {
    if prec <= 0 then 1 else Times10(Denominator(prec - 1))
  }

  /** d *= 10 on a uint64: the product modulo 2^64. */
  function Times10(d: UInt64): UInt64
  {
    (d * 10) % U64
  }

  /** Below 20, the denominator is 10^prec exactly; no wrap-around happens. */
  lemma {:induction false} DenominatorExact(prec: nat)
    requires prec <= 19
    ensures Denominator(prec) == Pow10(prec)
    decreases prec
  {
    if prec > 0 {
      DenominatorExact(prec - 1);
      Pow10Bound(prec);
    }
  }

  lemma Pow10Bound(k: nat)
    requires k <= 19
    ensures Pow10(k) <= 10_000_000_000_000_000_000 < U64
  {
    Pow10Monotone(k, 19);
    Pow10Exact19();
  }

  lemma Pow10Exact19()
    ensures Pow10(19) == 10_000_000_000_000_000_000
  {
    assert Pow10(4) == 10_000;
    assert Pow10(8) == 100_000_000;
    assert Pow10(12) == 1_000_000_000_000;
    assert Pow10(16) == 10_000_000_000_000_000;
  }

  lemma {:induction false} Pow10Monotone(a: nat, b: nat)
    requires a <= b
    ensures Pow10(a) <= Pow10(b)
    decreases b
  {
    if a < b {
      Pow10Monotone(a, b - 1);
    }
  }

  /** The price text as the source writes it: unit, then "%d.%d" of the
      quotient and the remainder by the denominator. */
  function PriceTextAsWritten(p: Price): string
    requires Denominator(p.prec) != 0
  {
    var denom := Denominator(p.prec);
    p.unit + Decimal(p.val / denom) + "." + Decimal(p.val % denom)
  }

  /** The price text with the fraction written to prec digits. */
  function PriceText(p: Price): string
    requires Denominator(p.prec) != 0
  {
    var denom := Denominator(p.prec);
    p.unit + Decimal(p.val / denom) + "." + PadLeft(Decimal(p.val % denom), p.prec)
  }

  /** The fraction digits of the corrected price text. */
  function Fraction(p: Price): string
    requires Denominator(p.prec) != 0
  {
    PadLeft(Decimal(p.val % Denominator(p.prec)), p.prec)
  }

  /** The corrected price text denotes the price: unit, integer part, a dot
      and exactly prec fraction digits, and the digits around the dot read
      together give back val. */
  lemma PriceTextDenotesPrice(p: Price)
    requires 1 <= p.prec <= 19
    ensures Denominator(p.prec) != 0
    ensures PriceText(p) == p.unit + Decimal(p.val / Pow10(p.prec)) + "." + Fraction(p)
    ensures |Fraction(p)| == p.prec
    ensures IsDigits(Decimal(p.val / Pow10(p.prec)) + Fraction(p))
    ensures DigitsValue(Decimal(p.val / Pow10(p.prec)) + Fraction(p)) == p.val
  {
    DivBounds(p.val, Pow10(p.prec));
    DenominatorExact(p.prec);
    var denom := Pow10(p.prec);
    var q, r := p.val / denom, p.val % denom;
    assert Fraction(p) == PadLeft(Decimal(r), p.prec);
    JoinDigits(q, r, p.prec);
  }

  /** The integer digits of q followed by the prec-digit fraction of r read
      as q * 10^prec + r. */
  lemma JoinDigits(q: nat, r: nat, prec: nat)
    requires prec >= 1 && r < Pow10(prec)
    ensures |PadLeft(Decimal(r), prec)| == prec
    ensures IsDigits(Decimal(q) + PadLeft(Decimal(r), prec))
    ensures DigitsValue(Decimal(q) + PadLeft(Decimal(r), prec)) == q * Pow10(prec) + r
  {
    FractionDigits(prec, r);
    DecimalRoundTrip(q);
    DigitsValueConcat(Decimal(q), PadLeft(Decimal(r), prec));
  }

  /** A remainder below 10^prec, padded to prec digits, takes exactly prec
      digits and still reads as itself. */
  lemma FractionDigits(prec: nat, r: nat)
    requires prec >= 1 && r < Pow10(prec)
    ensures |PadLeft(Decimal(r), prec)| == prec
    ensures IsDigits(PadLeft(Decimal(r), prec)) && DigitsValue(PadLeft(Decimal(r), prec)) == r
  {
    DecimalRoundTrip(r);
    DecimalLength(r, prec);
    PadLeftValue(Decimal(r), prec);
  }

  /** Euclidean division of a natural number by a positive one. */
  lemma DivBounds(v: nat, d: nat)
    requires d >= 1
    ensures 0 <= v / d && 0 <= v % d < d && v == (v / d) * d + v % d
  {
  }

  /** Without fraction digits (prec <= 0) the corrected text is the whole
      value followed by ".0", as the source writes it. */
  lemma PriceTextWhole(p: Price)
    requires p.prec <= 0
    ensures Denominator(p.prec) == 1
    ensures PriceText(p) == PriceTextAsWritten(p) == p.unit + Decimal(p.val) + ".0"
  {
  }

  /** A number of at least 10^k has more than k digits. */
  lemma {:induction false} DecimalLengthAtLeast(n: nat, k: nat)
    requires n >= Pow10(k)
    ensures |Decimal(n)| >= k + 1
    decreases k
  {
    if k > 0 {
      assert n / 10 >= Pow10(k - 1);
      DecimalLengthAtLeast(n / 10, k - 1);
    }
  }

  /** The text as written agrees with the corrected text exactly when the
      remainder already has prec digits, i.e. when the fraction does not
      start with a zero (or prec is 1, where no zero can be lost). */
  lemma PriceAsWrittenAgrees(p: Price)
    requires 1 <= p.prec <= 19
    ensures Denominator(p.prec) != 0
    ensures PriceTextAsWritten(p) == PriceText(p)
        <==> p.prec == 1 || p.val % Pow10(p.prec) >= Pow10(p.prec - 1)
  {
    DenominatorExact(p.prec);
    var denom := Denominator(p.prec);
    var r := p.val % denom;
    DivBounds(p.val, denom);
    var head := p.unit + Decimal(p.val / denom) + ".";
    assert PriceTextAsWritten(p) == head + Decimal(r);
    assert PriceText(p) == head + PadLeft(Decimal(r), p.prec);
    FractionAgrees(r, p.prec);
    SameHead(head, Decimal(r), PadLeft(Decimal(r), p.prec));
  }

  /** Padding the remainder r to prec digits changes nothing exactly when r
      already has prec digits. */
  lemma FractionAgrees(r: nat, prec: nat)
    requires prec >= 1 && r < Pow10(prec)
    ensures PadLeft(Decimal(r), prec) == Decimal(r) <==> prec == 1 || r >= Pow10(prec - 1)
  {
    if prec == 1 || r >= Pow10(prec - 1) {
      if prec > 1 {
        DecimalLengthAtLeast(r, prec - 1);
      }
    } else {
      DecimalLength(r, prec - 1);
      ZerosValue(prec - |Decimal(r)|);
    }
  }

  lemma SameHead(head: string, a: string, b: string)
    ensures head + a == head + b <==> a == b
  {
    if head + a == head + b {
      assert a == (head + a)[|head|..];
      assert b == (head + b)[|head|..];
    }
  }

  /** The source's text drops the fraction's leading zeros: 6405 hundredths
      of a dollar come out as "$64.5", which reads as 64.50, not 64.05. */
  lemma PriceAsWrittenDropsZeros()
    ensures PriceTextAsWritten(Price(6405, 2, "$")) == "$64.5"
    ensures PriceText(Price(6405, 2, "$")) == "$64.05"
  {
    DenominatorExact(2);
    assert Decimal(64) == "64";
    assert Decimal(5) == "5";
    assert Zeros(1) == "0";
  }

  /** Price{6449, 2, "$"} renders as "$64.49". */
  lemma PriceExample()
    ensures PriceText(Price(6449, 2, "$")) == "$64.49"
    ensures PriceTextAsWritten(Price(6449, 2, "$")) == "$64.49"
  {
    DenominatorExact(2);
    assert Decimal(64) == "64";
    assert Decimal(49) == "49";
  }

  /** The fields an object marshaler writes into the object it is given. */
  function ObjectFields(m: ObjectMarshaler): seq<Entry>
    requires m.PriceObject? ==> Denominator(m.p.prec) != 0
  {
    match m
    case PriceObject(p) => [Entry("price", Str(PriceTextAsWritten(p)))]
    case UserObject(u) => UserFields(u)
  }
}
