/** The ticket code format `EVT-<eventId>-<millis>-<4 digits>`: the generator,
    with the clock reading and the random draw passed in, and the validator. */
module TicketCodes {
  import opened Strings

  /** A value of `random.nextInt(9000)`. */
  type Draw = r: nat | r < 9000

  /** `String.format("%04d", n)`: the decimal digits of `n`, zero padded on
      the left to at least four. */
  function Pad4(n: nat): (s: string)
    ensures AllDigits(s) && |s| >= 4
    ensures DecimalValue(s) == n
    ensures |NatToDecimal(n)| >= 4 ==> s == NatToDecimal(n)
    ensures |NatToDecimal(n)| < 4 ==> |s| == 4
  {
    var d := NatToDecimal(n);
    DecimalRoundTrip(n);
    if |d| >= 4 then d
    else
      LeadingZerosValue(4 - |d|, d);
      seq(4 - |d|, _ => '0') + d
  }

  /** The random suffix `1000 + draw`. */
  function Suffix(draw: Draw): (n: nat)
    ensures 1000 <= n <= 9999
  {
    1000 + draw
  }

  /** A code assembled from its three numeric fields. */
  function Assemble(a: string, b: string, c: string): string {
    "EVT-" + a + "-" + b + "-" + c
  }

  /** `generateTicketCode(eventId)` for a clock reading `timestamp` and a random draw. */
  function GenerateTicketCode(eventId: int, timestamp: int, draw: Draw): (code: string)
    ensures |code| >= 4 && code[..4] == "EVT-"
    ensures eventId >= 0 && timestamp >= 0 ==> IsValidFormat(Some(code))
  {
    var a, b, c := IntToDecimal(eventId), IntToDecimal(timestamp), Pad4(Suffix(draw));
    SuffixIsFourDigits(draw);
    if eventId >= 0 && timestamp >= 0 then
      AssembleSplit(a, b, c);
      Assemble(a, b, c)
    else
      Assemble(a, b, c)
  }

  /** The three fields a valid code is made of: digits, digits, exactly four digits. */
  predicate WellFormedFields(a: string, b: string, c: string) {
    |a| >= 1 && AllDigits(a) && |b| >= 1 && AllDigits(b) && |c| == 4 && AllDigits(c)
  }

  /** `isValidFormat`: null and empty are rejected, otherwise the whole string must
      match `^EVT-\d+-\d+-\d{4}$`. The match is computed by splitting what follows
      `EVT-` on '-'; `IsValidFormatIff` relates it to the pattern. */
  predicate IsValidFormat(code: Option<string>): (valid: bool)
    ensures valid ==> code.Some? && |code.value| >= 12 && code.value[..4] == "EVT-"
  {
    match code
    case None => false
    case Some(s) =>
      if s == [] then false
      else if |s| < 4 || s[..4] != "EVT-" then false
      else
        var parts := SplitAll(s[4..], '-');
        if |parts| == 3 && WellFormedFields(parts[0], parts[1], parts[2]) then
          JoinSplitAll(s[4..], '-');
          AssembleJoin(parts[0], parts[1], parts[2]);
          assert parts == [parts[0], parts[1], parts[2]];
          assert s == s[..4] + s[4..];
          true
        else false
  }

  // ---------------------------------------------------------------- properties

  /** The suffix always prints as exactly four digits, so `%04d` adds no padding. */
  lemma SuffixIsFourDigits(draw: Draw)
    ensures Pad4(Suffix(draw)) == NatToDecimal(Suffix(draw))
    ensures |Pad4(Suffix(draw))| == 4
  {
    FourDigitLength(Suffix(draw));
  }

  lemma DigitsHaveNoDash(s: string)
    requires AllDigits(s)
    ensures '-' !in s
  {
  }

  lemma {:induction false} JoinSplitAll(s: string, c: char)
    ensures Join(SplitAll(s, c), c) == s
    decreases |s|
  {
    if s != [] {
      var rest := SplitAll(s[1..], c);
      JoinSplitAll(s[1..], c);
      if s[0] == c {
        assert [[]] + rest == SplitAll(s, c);
        assert ([[]] + rest)[1..] == rest;
      } else {
        var r := SplitAll(s, c);
        assert r == [[s[0]] + rest[0]] + rest[1..];
        if |rest| == 1 {
          assert s == [s[0]] + s[1..];
        } else {
          assert r[1..] == rest[1..];
          assert Join(rest, c) == rest[0] + [c] + Join(rest[1..], c);
          assert s == [s[0]] + s[1..];
        }
      }
    }
  }

  lemma AssembleJoin(a: string, b: string, c: string)
    ensures Assemble(a, b, c) == "EVT-" + Join([a, b, c], '-')
    ensures Assemble(a, b, c)[4..] == Join([a, b, c], '-')
  {
    assert [a, b, c][1..] == [b, c];
    assert [b, c][1..] == [c];
    assert Join([b, c], '-') == b + "-" + c;
    assert Join([a, b, c], '-') == a + "-" + (b + "-" + c);
    assert Assemble(a, b, c) == "EVT-" + (a + "-" + (b + "-" + c));
  }

  /** The fields of an assembled code are recovered by splitting after `EVT-`. */
  lemma AssembleSplit(a: string, b: string, c: string)
    requires WellFormedFields(a, b, c)
    ensures Assemble(a, b, c)[..4] == "EVT-"
    ensures SplitAll(Assemble(a, b, c)[4..], '-') == [a, b, c]
  {
    AssembleJoin(a, b, c);
    DigitsHaveNoDash(a);
    DigitsHaveNoDash(b);
    DigitsHaveNoDash(c);
    SplitAllJoin([a, b, c], '-');
  }

  /** `isValidFormat` accepts exactly `EVT-` digits `-` digits `-` four digits. */
  lemma IsValidFormatIff(s: string)
    ensures IsValidFormat(Some(s)) <==>
            exists a, b, c :: WellFormedFields(a, b, c) && s == Assemble(a, b, c)
  {
    if IsValidFormat(Some(s)) {
      var parts := SplitAll(s[4..], '-');
      JoinSplitAll(s[4..], '-');
      AssembleJoin(parts[0], parts[1], parts[2]);
      assert parts == [parts[0], parts[1], parts[2]];
      assert s == s[..4] + s[4..];
      assert WellFormedFields(parts[0], parts[1], parts[2]) && s == Assemble(parts[0], parts[1], parts[2]);
    }
    forall a, b, c | WellFormedFields(a, b, c) && s == Assemble(a, b, c)
      ensures IsValidFormat(Some(s))
    {
      AssembleSplit(a, b, c);
    }
  }

  /** Null and the empty string are never valid codes. */
  lemma NullOrEmptyInvalid()
    ensures !IsValidFormat(None)
    ensures !IsValidFormat(Some(""))
  {
  }

  /** A code generated for a non-negative event id and clock reading is valid. */
  lemma GeneratedIsValid(eventId: int, timestamp: int, draw: Draw)
    requires eventId >= 0 && timestamp >= 0
    ensures IsValidFormat(Some(GenerateTicketCode(eventId, timestamp, draw)))
  {
    SuffixIsFourDigits(draw);
    AssembleSplit(IntToDecimal(eventId), IntToDecimal(timestamp), Pad4(Suffix(draw)));
  }

  /** Distinct (eventId, timestamp, draw) triples give distinct codes. */
  lemma GenerateInjective(e1: int, t1: int, d1: Draw, e2: int, t2: int, d2: Draw)
    requires e1 >= 0 && t1 >= 0 && e2 >= 0 && t2 >= 0
    requires GenerateTicketCode(e1, t1, d1) == GenerateTicketCode(e2, t2, d2)
    ensures e1 == e2 && t1 == t2 && d1 == d2
  {
    SuffixIsFourDigits(d1);
    SuffixIsFourDigits(d2);
    AssembleSplit(IntToDecimal(e1), IntToDecimal(t1), Pad4(Suffix(d1)));
    AssembleSplit(IntToDecimal(e2), IntToDecimal(t2), Pad4(Suffix(d2)));
    NatToDecimalInjective(e1, e2);
    NatToDecimalInjective(t1, t2);
    NatToDecimalInjective(Suffix(d1), Suffix(d2));
  }

  /** A negative event id prints with a '-' sign, which the pattern rejects. */
  lemma NegativeEventIdInvalid(eventId: int, timestamp: int, draw: Draw)
    requires eventId < 0
    ensures !IsValidFormat(Some(GenerateTicketCode(eventId, timestamp, draw)))
  {
    var x := IntToDecimal(eventId);
    var rest := GenerateTicketCode(eventId, timestamp, draw)[4..];
    AssembleJoin(x, IntToDecimal(timestamp), Pad4(Suffix(draw)));
    assert rest[0] == x[0] == '-';
    assert SplitAll(rest, '-')[0] == [];
  }
}
