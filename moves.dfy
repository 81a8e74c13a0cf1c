/**
  A move and the text a player types for it: two one-based integers separated by a
  space, ended by a newline, each in 1..3. Parsing yields the zero-based move.
*/
module Moves {
  import opened Wrappers

  /** A zero-based (column, row) pair. */
  datatype Move = Move(x: int, y: int) {
    /** Both coordinates address a cell of the 3×3 grid. */
    predicate InRange() {
      0 <= x < 3 && 0 <= y < 3
    }
  }

  /** The parser's only error. */
  datatype FormatError = InvalidMoveFormat

  predicate IsDigit(c: char) {
    '0' <= c <= '9'
  }

  predicate AllDigits(s: string) {
    forall i | 0 <= i < |s| :: IsDigit(s[i])
  }

  /** The value of a string of decimal digits, most significant digit first. */
  function DigitsValue(ds: string): nat
    requires AllDigits(ds)
  {
    if ds == [] then 0
    else 10 * DigitsValue(ds[..|ds| - 1]) + (ds[|ds| - 1] as int - '0' as int)
  }

  /** One integer token: an optional sign followed by at least one decimal digit. */
  function ParseInt(t: string): (r: Option<int>)
    ensures r.Some? ==> t != [] && ' ' !in t
  {
    var signed := t != [] && (t[0] == '+' || t[0] == '-');
    var digits := if signed then t[1..] else t;
    if digits == [] || !AllDigits(digits) then None
    else
      assert signed ==> t == [t[0]] + digits;
      var v: int := DigitsValue(digits);
      if signed && t[0] == '-' then Some(-v) else Some(v)
  }

  /** The position of the first c in s, or |s| when there is none. */
  function IndexOf(s: string, c: char): (i: nat)
    ensures i <= |s|
    ensures c !in s[..i]
    ensures i < |s| ==> s[i] == c
  {
    if s == [] then 0
    else if s[0] == c then 0
    else
      var j := IndexOf(s[1..], c);
      assert s[..j + 1] == [s[0]] + s[1..][..j];
      1 + j
  }

  /** Splits "a b\n" into a and b at the first space, once the final newline is removed. */
  function Split(s: string): (r: Option<(string, string)>)
    ensures r.Some? ==> s == r.value.0 + " " + r.value.1 + "\n" && ' ' !in r.value.0
    ensures r.None? ==> s == [] || s[|s| - 1] != '\n' || ' ' !in s[..|s| - 1]
  {
    if s == [] || s[|s| - 1] != '\n' then None
    else
      var body := s[..|s| - 1];
      var i := IndexOf(body, ' ');
      if i == |body| then
        assert body[..i] == body;
        None
      else
        assert body == body[..i] + " " + body[i + 1..];
        Some((body[..i], body[i + 1..]))
  }

  /**
    Reads a move from one line of input. Both integers must lie in 1..3; the move
    holds each decremented by one. Every other input is InvalidMoveFormat.
  */
  function ParseMove(s: string): (r: Result<Move, FormatError>)
    ensures r.Ok? ==> r.value.InRange()
  {
    match Split(s)
    case None => Err(InvalidMoveFormat)
    case Some((a, b)) =>
      match (ParseInt(a), ParseInt(b))
      case (Some(x), Some(y)) =>
        if !(1 <= x <= 3) || !(1 <= y <= 3) then Err(InvalidMoveFormat)
        else Ok(Move(x - 1, y - 1))
      case _ => Err(InvalidMoveFormat)
  }

  /** A line made of two tokens splits back into exactly those tokens. */
  lemma SplitTokens(a: string, b: string)
    requires ' ' !in a
    ensures Split(a + " " + b + "\n") == Some((a, b))
  {
    var s := a + " " + b + "\n";
    var body := s[..|s| - 1];
    assert body == a + " " + b;
    var i := IndexOf(body, ' ');
    assert body[|a|] == ' ';
    assert body[..i] == a;
    assert body[i + 1..] == b;
  }

  /**
    Every line "a b\n" whose two tokens are integers parses: to the zero-based move
    when both lie in 1..3, and to InvalidMoveFormat otherwise.
  */
  lemma ParseMoveComplete(a: string, b: string)
    requires ParseInt(a).Some? && ParseInt(b).Some?
    ensures var x, y := ParseInt(a).value, ParseInt(b).value;
      ParseMove(a + " " + b + "\n")
        == if 1 <= x <= 3 && 1 <= y <= 3 then Ok(Move(x - 1, y - 1)) else Err(InvalidMoveFormat)
  {
    SplitTokens(a, b);
  }

  /**
    Every accepted line is two integer tokens around a space, ended by a newline, and the
    tokens read as the move's coordinates plus one.
  */
  lemma ParseMoveSound(s: string)
    requires ParseMove(s).Ok?
    ensures exists a, b ::
              && s == a + " " + b + "\n"
              && ParseInt(a) == Some(ParseMove(s).value.x + 1)
              && ParseInt(b) == Some(ParseMove(s).value.y + 1)
  {
    var m := ParseMove(s).value;
    var (a, b) := Split(s).value;
    assert s == a + " " + b + "\n";
    assert ParseInt(a) == Some(m.x + 1) && ParseInt(b) == Some(m.y + 1);
  }

  /** The shortest decimal spelling of n. */
  function Decimal(n: nat): (s: string)
    ensures s != [] && AllDigits(s)
  {
    if n < 10 then [('0' as int + n) as char]
    else Decimal(n / 10) + [('0' as int + n % 10) as char]
  }

  lemma {:induction false} DecimalValue(n: nat)
    ensures DigitsValue(Decimal(n)) == n
  {
    if n >= 10 {
      DecimalValue(n / 10);
      var s := Decimal(n);
      assert s[..|s| - 1] == Decimal(n / 10);
    }
  }

  /** The integer token reader reads back what Decimal spells. */
  lemma ParseDecimal(n: nat)
    ensures ParseInt(Decimal(n)) == Some(n)
  {
    DecimalValue(n);
  }

  /** The line a player types for m: one-based column, a space, one-based row, a newline. */
  function Format(m: Move): string
    requires m.InRange()
  {
    Decimal(m.x + 1) + " " + Decimal(m.y + 1) + "\n"
  }

  /** Parsing inverts Format on every in-range move. */
  lemma ParseFormat(m: Move)
    requires m.InRange()
    ensures ParseMove(Format(m)) == Ok(m)
  {
    var a, b := Decimal(m.x + 1), Decimal(m.y + 1);
    ParseDecimal(m.x + 1);
    ParseDecimal(m.y + 1);
    ParseMoveComplete(a, b);
    assert Format(m) == a + " " + b + "\n";
  }

  /** A line of two digits from 1 to 3 reads as those digits less one. */
  lemma ParseDigits(a: char, b: char)
    requires '1' <= a <= '3' && '1' <= b <= '3'
    ensures ParseMove([a, ' ', b, '\n']) == Ok(Move(a as int - '1' as int, b as int - '1' as int))
  {
    assert [a][..0] == [] && [b][..0] == [];
    assert AllDigits([a]) && DigitsValue([a]) == a as int - '0' as int;
    assert AllDigits([b]) && DigitsValue([b]) == b as int - '0' as int;
    assert ParseInt([a]) == Some(a as int - '0' as int);
    assert ParseInt([b]) == Some(b as int - '0' as int);
    ParseMoveComplete([a], [b]);
    assert [a] + " " + [b] + "\n" == [a, ' ', b, '\n'];
  }

  /** "2 3\n" reads as the zero-based move (1, 2). */
  lemma ParseAcceptsExample()
    ensures ParseMove("2 3\n") == Ok(Move(1, 2))
  {
    assert ParseInt("2") == Some(2);
    assert ParseInt("3") == Some(3);
    ParseMoveComplete("2", "3");
    assert "2" + " " + "3" + "\n" == "2 3\n";
  }

  /** Integers outside 1..3 are rejected. */
  lemma ParseRejectsOutOfRange()
    ensures ParseMove("0 2\n") == Err(InvalidMoveFormat)
    ensures ParseMove("4 1\n") == Err(InvalidMoveFormat)
  {
  }


  /** A line without a space, such as a non-integer or a lone integer, is rejected. */
  lemma ParseRejectsMalformed()
    ensures ParseMove("abc\n") == Err(InvalidMoveFormat)
    ensures ParseMove("2\n") == Err(InvalidMoveFormat)
  {
  }

}
