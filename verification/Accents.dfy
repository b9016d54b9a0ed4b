/** spa/src/shell/format.ts and spa/src/screens/accounts/AccountRow.tsx: the colour a name decides, written twice. */
module Accents {
  import opened Text

  /** One UTF-16 code unit, what `charCodeAt` answers. */
  type Unit = n: int | 0 <= n < 0x1_0000 witness 0

  function UnitsOf(c: char): seq<Unit> {
    var n := c as int;
    if n < 0x1_0000 then [n]
    else [0xD800 + (n - 0x1_0000) / 0x400, 0xDC00 + (n - 0x1_0000) % 0x400]
  }

  function Units(s: string): seq<Unit> {
    if s == "" then [] else UnitsOf(s[0]) + Units(s[1..])
  }

  /** A character below 0x10000 is its own unit; one above is the pair whose halves give it back. */
  lemma UnitsGiveTheCharacter(c: char)
    ensures c as int < 0x1_0000 ==> UnitsOf(c) == [c as int]
    ensures c as int >= 0x1_0000 ==>
              && |UnitsOf(c)| == 2
              && 0xD800 <= UnitsOf(c)[0] < 0xDC00 && 0xDC00 <= UnitsOf(c)[1] < 0xE000
              && c as int == 0x1_0000 + (UnitsOf(c)[0] as int - 0xD800) * 0x400 + (UnitsOf(c)[1] as int - 0xDC00)
  {
  }

  lemma {:induction false} UnitsOfSum(a: string, b: string)
    ensures Units(a + b) == Units(a) + Units(b)
    ensures |a| == 1 ==> Units(a) == UnitsOf(a[0])
  {
    if a == "" {
      assert a + b == b;
    } else {
      assert (a + b)[1..] == a[1..] + b;
      UnitsOfSum(a[1..], b);
    }
  }

  const MODULUS := 9973

  const SAFE_INTEGER := 0x1F_FFFF_FFFF_FFFF

  const ACCENTS: seq<string> := [
    "bg-blue-s text-blue", "bg-ok-s text-ok-tx", "bg-warn-s text-warn-tx", "bg-idle-s text-idle-tx"]

  const SQUARES: seq<string> := [
    "bg-blue-s text-blue", "bg-ok-s text-ok-tx", "bg-warn-s text-warn-tx", "bg-idle-s text-idle-tx"]

  // ------------------------------------------------- the polynomial

  function Pow31(n: nat): nat {
    if n == 0 then 1 else 31 * Pow31(n - 1)
  }

  /** The units as the digits of a number in base 31, the first one the most significant. */
  function Poly(units: seq<Unit>): nat {
    if units == [] then 0 else units[0] * Pow31(|units| - 1) + Poly(units[1..])
  }

  function Hash(units: seq<Unit>): nat {
    Poly(units) % MODULUS
  }

  lemma {:induction false} PowSum(a: nat, b: nat)
    ensures Pow31(a + b) == Pow31(a) * Pow31(b)
  {
    if a > 0 {
      PowSum(a - 1, b);
      assert 31 * (Pow31(a - 1) * Pow31(b)) == 31 * Pow31(a - 1) * Pow31(b);
    }
  }

  lemma Distribute(u: int, p: int, q: int, r: int)
    ensures (u * p + r) * q == u * (p * q) + r * q
  {
    assert (u * p + r) * q == u * p * q + r * q;
  }

  lemma {:induction false} PolyOfSum(a: seq<Unit>, b: seq<Unit>)
    ensures Poly(a + b) == Poly(a) * Pow31(|b|) + Poly(b)
  {
    if a == [] {
      assert a + b == b;
    } else {
      assert (a + b)[1..] == a[1..] + b;
      PolyOfSum(a[1..], b);
      PowSum(|a| - 1, |b|);
      Distribute(a[0], Pow31(|a| - 1), Pow31(|b|), Poly(a[1..]));
    }
  }

  lemma PolyOfOneMore(front: seq<Unit>, u: Unit)
    ensures Poly(front + [u]) == Poly(front) * 31 + u
  {
    PolyOfSum(front, [u]);
    assert [u][1..] == [];
    assert Pow31(1) == 31 * Pow31(0);
    assert Poly([u]) == u * Pow31(0) + Poly([]) == u;
  }

  lemma {:induction false} ModShift(a: int, k: nat)
    ensures (a + k * MODULUS) % MODULUS == a % MODULUS
  {
    if k > 0 {
      ModShift(a, k - 1);
      assert a + k * MODULUS == a + (k - 1) * MODULUS + MODULUS;
    }
  }

  /** Taking remainders before a multiplication and an addition changes no remainder after them. */
  lemma ModStep(x: nat, w: nat, c: nat)
    ensures (x % MODULUS * w + c) % MODULUS == (x * w + c) % MODULUS
  {
    var q, r := x / MODULUS, x % MODULUS;
    assert x == q * MODULUS + r;
    assert x * w == q * w * MODULUS + r * w;
    ModShift(r * w + c, q * w);
  }

  // ------------------------------------------------- the loop

  lemma StaysSafe(units: seq<Unit>, i: nat)
    requires i < |units|
    ensures Hash(units[..i]) * 31 + units[i] <= SAFE_INTEGER
  {
    assert Hash(units[..i]) < MODULUS;
  }

  /** The rolling loop both copies run. */
  method Roll(units: seq<Unit>) returns (hash: nat)
    ensures hash == Poly(units) % 9973 && hash < 9973
  {
    hash := 0;
    for i := 0 to |units|
      invariant hash == Poly(units[..i]) % MODULUS
    {
      StaysSafe(units, i);
      assert hash * 31 + units[i] <= SAFE_INTEGER;
      ModStep(Poly(units[..i]), 31, units[i]);
      PolyOfOneMore(units[..i], units[i]);
      assert units[..i + 1] == units[..i] + [units[i]];
      hash := (hash * 31 + units[i]) % MODULUS;
    }
    assert units[..|units|] == units;
  }

  function AccentOf(name: Option<string>): string {
    ACCENTS[Hash(Units(Trim(if name.Some? then name.value else ""))) % |ACCENTS|]
  }

  function SquareOf(name: string): string {
    SQUARES[Hash(Units(name)) % |SQUARES|]
  }

  /** The palette entry is the polynomial's remainder by 9973, and that by four, the same in both copies. */
  lemma ColourOfThePolynomial(name: Option<string>)
    ensures var palette := [
              "bg-blue-s text-blue", "bg-ok-s text-ok-tx", "bg-warn-s text-warn-tx", "bg-idle-s text-idle-tx"];
            && AccentOf(name) == palette[Poly(Units(if name.None? then "" else Trim(name.value))) % 9973 % 4]
            && (name.Some? ==> SquareOf(name.value) == palette[Poly(Units(name.value)) % 9973 % 4])
  {
    TrimIsEmpty("");
  }

  method AccentFor(name: Option<string>) returns (accent: string)
    ensures accent == AccentOf(name) && accent in ACCENTS
  {
    var s := Trim(if name.Some? then name.value else "");
    var hash := Roll(Units(s));
    accent := ACCENTS[hash % |ACCENTS|];
  }

  method SquareFor(name: string) returns (square: string)
    ensures square == SquareOf(name) && square in SQUARES
  {
    var hash := Roll(Units(name));
    square := SQUARES[hash % |SQUARES|];
  }

  // ------------------------------------------------- what the colour depends on

  lemma ModOfSum(x: nat, w: nat, y: nat)
    ensures (x * w + y) % MODULUS == (x % MODULUS * w + y % MODULUS) % MODULUS
  {
    ModStep(x, w, y);
    ModStep(y, 1, x % MODULUS * w);
  }

  /** The hash of two names written together is decided by their hashes and the length of the second. */
  lemma {:induction false} HashOfSum(a: seq<Unit>, b: seq<Unit>)
    ensures Hash(a + b) == (Hash(a) * Pow31(|b|) + Hash(b)) % MODULUS
  {
    PolyOfSum(a, b);
    ModOfSum(Poly(a), Pow31(|b|), Poly(b));
  }

  /** Both copies of the hash give a name the same colour up to the blanks around it. */
  lemma CopiesAgreeOnTrimmedNames(name: string)
    ensures AccentOf(Some(name)) == SquareOf(Trim(name))
    ensures Trimmed(name) ==> AccentOf(Some(name)) == SquareOf(name)
  {
  }

  lemma UnitsOfTabbed()
    ensures Units("a") == [97] && Units("\ta") == [9, 97]
  {
    assert "a"[1..] == "" && "\ta"[1..] == "a";
    assert [9] + [97] == [9, 97];
  }

  lemma PolyOfTwo(a: Unit, b: Unit)
    ensures Poly([b]) == b && Poly([a, b]) == 31 * a + b
  {
    PolyOfOneMore([], b);
    PolyOfOneMore([], a);
    PolyOfOneMore([a], b);
    assert [] + [b] == [b] && [a] + [b] == [a, b] && [] + [a] == [a];
  }

  /** And not further: here a tab in front of a name changes the square and not the accent. */
  lemma CopiesDifferOnBlanks()
    ensures AccentOf(Some("\ta")) != SquareOf("\ta")
  {
    assert TrimStart("\ta") == TrimStart("\ta"[1..]) == "a";
    UnitsOfTabbed();
    PolyOfTwo(9, 97);
  }
}
