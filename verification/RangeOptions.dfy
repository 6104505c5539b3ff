/** Byte ranges (fs/open_options.go), single ranges of section 2.1 of RFC 7233. */
module RangeOptions {
  import opened Wrappers
  import opened Text

  type int64 = x: int | -MAX - 1 <= x <= MAX

  type Size = x: int | 0 <= x <= MAX

  /** What is left of a sum or difference in 64 bits. */
  function Wrap(x: int): (r: int64)
    requires -2 * MAX - 2 <= x <= 2 * MAX + 1
  {
    if x > MAX then x - 2 * MAX - 2 else if x < -MAX - 1 then x + 2 * MAX + 2 else x
  }

  /** Both ends are included; a negative one is absent.  With only an end, it counts from the end. */
  datatype Range = Range(start: int64, end: int64)

  datatype OpenOption = RangeOption(range: Range) | SeekOption(offset: int64) | NullOption | OtherOption(id: nat)

  // --- What a range selects ---------------------------------------------------------------

  /** Byte `b` of an object of that size is selected, as the standard has it. */
  predicate Selects(r: Range, size: Size, b: nat)
  {
    b < size &&
    if r.start >= 0 then r.start <= b && (r.end >= 0 ==> b <= r.end)
    else r.end >= 0 ==> b >= size - r.end
  }

  /** Where to start and how many bytes to take, -1 being all. */
  function Decode(r: Range, size: int64): (d: (int64, int64))
  {
    if r.start >= 0 then (r.start, if r.end >= 0 then Wrap(Wrap(r.end - r.start) + 1) else -1)
    else (if r.end >= 0 && Wrap(size - r.end) > 0 then Wrap(size - r.end) else 0, -1)
  }

  predicate Takes(d: (int64, int64), size: Size, b: nat)
  {
    b < size && d.0 <= b && (d.1 == -1 || b < d.0 + d.1)
  }

  /** The whole number range, whose length does not fit. */
  predicate Endless(r: Range)
  {
    r.start == 0 && r.end == MAX
  }

  /** A range that ends two before it starts, inside the object: its length reads as "to the end". */
  predicate Backwards(r: Range, size: Size)
  {
    r.end >= 0 && r.start == r.end + 2 && r.start < size
  }

  /** Decoding selects the right bytes, but for two kinds of range. */
  lemma {:induction false} DecodeIff(r: Range, size: Size)
    ensures (forall b: nat :: Takes(Decode(r, size), size, b) <==> Selects(r, size, b)) <==>
      !Backwards(r, size) && !(Endless(r) && size > 0)
  {
    if Backwards(r, size) {
      assert Takes(Decode(r, size), size, r.start) && !Selects(r, size, r.start);
    } else if Endless(r) && size > 0 {
      assert Selects(r, size, 0) && !Takes(Decode(r, size), size, 0);
    }
  }

  // --- Normalising ------------------------------------------------------------------------

  /** What a range is rewritten to, for an object that is not empty. */
  function Fixed(r: Range, size: Size): (f: Range)
  {
    var g := if r.start < 0 then Range(if Wrap(size - r.end) > 0 then Wrap(size - r.end) else 0, -1) else r;
    if g.end > size || g.end < 0 then Range(g.start, size - 1) else g
  }

  function FixedOption(o: OpenOption, size: int64): (f: OpenOption)
  {
    if size < 0 then o
    else if size == 0 then (if o.RangeOption? then NullOption else o)
    else
      match o
      case RangeOption(r) => RangeOption(Fixed(r, size))
      case SeekOption(offset) => RangeOption(Range(offset, size - 1))
      case _ => o
  }

  /** Make the options fit an object of that size, unless it is unknown: no range is left for an
      empty one, and no seek for any other. */
  method FixRangeOption(options: array<OpenOption>, size: int64)
    modifies options
    ensures size < 0 ==> options[..] == old(options[..])
    ensures size == 0 ==> forall i :: 0 <= i < options.Length ==>
      options[i] == if old(options[i]).RangeOption? then NullOption else old(options[i])
    ensures size > 0 ==> forall i :: 0 <= i < options.Length ==>
      !options[i].SeekOption? && (options[i].RangeOption? || options[i] == old(options[i]))
    ensures forall i :: 0 <= i < options.Length ==> options[i] == FixedOption(old(options[i]), size)
  {
    if size < 0 {
      return;
    } else if size == 0 {
      for i := 0 to options.Length
        invariant forall j :: 0 <= j < options.Length ==>
          options[j] == if j < i then FixedOption(old(options[j]), size) else old(options[j])
      {
        if options[i].RangeOption? {
          options[i] := NullOption;
        }
      }
      return;
    }
    for i := 0 to options.Length
      invariant forall j :: 0 <= j < options.Length ==>
        options[j] == if j < i then FixedOption(old(options[j]), size) else old(options[j])
    {
      match options[i] {
        case RangeOption(r) =>
          var x := r;
          if x.start < 0 {
            x := Range(if Wrap(size - x.end) > 0 then Wrap(size - x.end) else 0, -1);
            options[i] := RangeOption(x);
          }
          if x.end > size || x.end < 0 {
            x := Range(x.start, size - 1);
            options[i] := RangeOption(x);
          }
        case SeekOption(offset) =>
          options[i] := RangeOption(Range(offset, size - 1));
        case NullOption =>
        case OtherOption(_) =>
      }
    }
  }

  /** Rewriting keeps the selected bytes exactly when at least one end is given; with neither, it
      selects nothing where everything was meant, unless counting back from the end does not fit. */
  lemma {:induction false} FixedSelectsIff(r: Range, size: Size)
    requires size > 0
    ensures (forall b: nat :: Selects(Fixed(r, size), size, b) <==> Selects(r, size, b)) <==>
      r.start >= 0 || r.end >= 0 || size - r.end > MAX
  {
    if r.start < 0 && r.end < 0 && size - r.end <= MAX {
      assert Selects(r, size, 0) && !Selects(Fixed(r, size), size, 0);
    }
  }

  /** Decoding takes the same bytes before and after, but for those ranges and for the endless one,
      which rewriting repairs. */
  lemma {:induction false} FixedTakesIff(r: Range, size: Size)
    requires size > 0
    ensures (forall b: nat :: Takes(Decode(Fixed(r, size), size), size, b) <==> Takes(Decode(r, size), size, b)) <==>
      (r.start >= 0 || r.end >= 0 || size - r.end > MAX) && !(Endless(r) && size < MAX)
  {
    if r.start < 0 && r.end < 0 && size - r.end <= MAX {
      assert Takes(Decode(r, size), size, 0) && !Takes(Decode(Fixed(r, size), size), size, 0);
    } else if Endless(r) && size < MAX {
      assert !Takes(Decode(r, size), size, 0) && Takes(Decode(Fixed(r, size), size), size, 0);
    }
  }

  /** The ranges that show it: all bytes are selected, and none taken; none, and one taken. */
  lemma {:induction false} RangesMisread()
    ensures Selects(Range(0, MAX), 10, 0) && Decode(Range(0, MAX), 10) == (0, -MAX - 1)
    ensures !Selects(Range(2, 0), 10, 2) && Takes(Decode(Range(2, 0), 10), 10, 2)
    ensures Selects(Range(-1, -1), 10, 0) && Fixed(Range(-1, -1), 10) == Range(11, 9)
    ensures Fixed(Range(-1, -MAX - 1), 10) == Range(0, 9)
    ensures Fixed(Range(0, 10), 10) == Range(0, 10)
  {
  }

  /** A header can ask for the endless range. */
  lemma {:induction false} EndlessParsed(r: Range)
    requires Endless(r)
    ensures Parse(Header(r)) == Ok(r)
  {
    ParseHeader(r);
  }

  /** Rewriting twice is rewriting once, and leaves both ends given. */
  lemma {:induction false} FixedTwice(r: Range, size: Size)
    requires size > 0
    ensures Fixed(Fixed(r, size), size) == Fixed(r, size)
    ensures Fixed(r, size).start >= 0 && Fixed(r, size).end >= 0
  {
  }

  /** The rewritten range stays inside the object, unless it was given to end just after it. */
  lemma {:induction false} FixedInsideIff(r: Range, size: Size)
    requires size > 0
    ensures Fixed(r, size).end < size <==> !(r.start >= 0 && r.end == size)
  {
  }

  /** A seek selects everything from its offset on, before and after. */
  lemma {:induction false} FixedSeek(offset: Size, size: Size, b: nat)
    requires size > 0
    ensures Selects(FixedOption(SeekOption(offset), size).range, size, b) <==> offset <= b < size
  {
  }

  // --- Headers ----------------------------------------------------------------------------

  const PREAMBLE := "bytes="

  function Side(n: int64): (s: string)
  {
    if n >= 0 then Itoa(n) else []
  }

  /** The value of the Range header. */
  function Header(r: Range): (s: string)
  {
    PREAMBLE + Side(r.start) + "-" + Side(r.end)
  }

  datatype HeaderError = NoPreamble | MultipleRanges | NoDash | BadStart | BadEnd

  function ParseSide(s: string): (n: Option<int64>)
  {
    var t := TrimSpace(s);
    if t == [] then Some(-1)
    else
      var n := Atoi(t);
      if n.None? || n.value < 0 then None else n
  }

  function ParseBody(s: string): (r: Result<Range, HeaderError>)
  {
    if ',' in s then Err(MultipleRanges)
    else
      var dash := IndexOf(s, '-');
      if dash.None? then Err(NoDash)
      else
        var start, end := ParseSide(s[..dash.value]), ParseSide(s[dash.value + 1..]);
        if start.None? then Err(BadStart)
        else if end.None? then Err(BadEnd)
        else Ok(Range(start.value, end.value))
  }

  function Parse(s: string): (r: Result<Range, HeaderError>)
  {
    if PREAMBLE <= s then ParseBody(s[|PREAMBLE|..]) else Err(NoPreamble)
  }

  lemma {:induction false} SideRead(n: int64)
    ensures ParseSide(Side(n)) == Some(if n >= 0 then n else -1)
    ensures forall c :: c in Side(n) ==> '0' <= c <= '9'
  {
    if n >= 0 {
      var s := Itoa(n);
      AtoiItoa(n);
      assert s[0] in s && s[|s| - 1] in s;
      assert TrimSpace(s) == s;
    }
  }

  lemma {:induction false} BodyRead(a: string, b: string)
    requires forall c :: c in a ==> '0' <= c <= '9'
    requires forall c :: c in b ==> '0' <= c <= '9'
    requires ParseSide(a).Some? && ParseSide(b).Some?
    ensures ParseBody(a + "-" + b) == Ok(Range(ParseSide(a).value, ParseSide(b).value))
  {
    var s := a + "-" + b;
    FirstDash(a, b);
    assert s[..|a|] == a && s[|a| + 1..] == b;
    forall c | c in s ensures c != ',' {
      assert c in a || c == '-' || c in b;
    }
  }

  /** Parsing a rendered header gives back the range, absent ends being all the same. */
  lemma {:induction false} ParseHeader(r: Range)
    ensures Parse(Header(r)) == Ok(Range(if r.start >= 0 then r.start else -1, if r.end >= 0 then r.end else -1))
  {
    SideRead(r.start);
    SideRead(r.end);
    var body := Side(r.start) + "-" + Side(r.end);
    BodyRead(Side(r.start), Side(r.end));
    assert Header(r) == PREAMBLE + body;
    assert Header(r)[|PREAMBLE|..] == body;
  }

  /** One side of a range in a header: blank, or a number. */
  predicate SideMeans(s: string, n: int64)
  {
    var t := TrimSpace(s);
    if t == "" then n == -1 else n >= 0 && Atoi(t) == Some(n)
  }

  ghost predicate SidesOf(body: string, a: string, b: string, r: Range)
  {
    body == a + "-" + b && '-' !in a && ',' !in a && ',' !in b && SideMeans(a, r.start) && SideMeans(b, r.end)
  }

  /** The headers that are read: the unit, and two sides about the first dash, without any comma. */
  lemma {:induction false} ParseIff(s: string, r: Range)
    ensures Parse(s) == Ok(r) <==> PREAMBLE <= s && exists a, b :: SidesOf(s[|PREAMBLE|..], a, b, r)
  {
    if PREAMBLE <= s {
      var body := s[|PREAMBLE|..];
      if ParseBody(body) == Ok(r) {
        var a, b := Sides(body, r);
      }
      if exists a, b :: SidesOf(body, a, b, r) {
        var a, b :| SidesOf(body, a, b, r);
        SidesRead(a, b, r);
      }
    }
  }

  lemma {:induction false} Sides(body: string, r: Range) returns (a: string, b: string)
    requires ParseBody(body) == Ok(r)
    ensures SidesOf(body, a, b, r)
  {
    var k := IndexOf(body, '-').value;
    a, b := body[..k], body[k + 1..];
    assert body == a + "-" + b;
    assert forall c :: c in a || c in b ==> c in body;
  }

  lemma {:induction false} SidesRead(a: string, b: string, r: Range)
    requires '-' !in a && ',' !in a && ',' !in b && SideMeans(a, r.start) && SideMeans(b, r.end)
    ensures ParseBody(a + "-" + b) == Ok(r)
  {
    var body := a + "-" + b;
    FirstDash(a, b);
    assert body[..|a|] == a && body[|a| + 1..] == b;
    assert forall c :: c in body ==> c in a || c == '-' || c in b;
  }

  lemma {:induction false} FirstDash(a: string, b: string)
    requires '-' !in a
    ensures IndexOf(a + "-" + b, '-') == Some(|a|)
  {
    var s := a + "-" + b;
    assert s[|a|] == '-';
    assert '-' in s;
    assert forall j :: 0 <= j < |a| ==> s[j] == a[j] && a[j] in a;
  }

  /** The forms of section 2.1 of RFC 7233: the first ten bytes, the last 20, and all from 15 on. */
  lemma {:induction false} HeaderExamples()
    ensures Header(Range(0, 9)) == "bytes=0-9" && Header(Range(-1, 20)) == "bytes=-20"
    ensures Header(Range(15, -1)) == "bytes=15-"
  {
    assert Itoa(0) == "0" && Itoa(9) == "9" && Itoa(1) == "1" && Itoa(2) == "2";
    assert Itoa(20) == Itoa(2) + "0" == "20";
    assert Itoa(15) == Itoa(1) + "5" == "15";
  }
}
