/** The option string of the mount helper (fs/mount_helper.go). */
module MountHelper {
  import opened Wrappers
  import opened Text

  datatype ParseError = BadOption | OptionName | EmptyOption | UnterminatedQuote | AfterQuote | Syntax

  datatype Phase = InParam | InValue | InQuoted | PastQuote

  /** The variables of the parser. */
  datatype State = State(phase: Phase, prev: nat, quote: char, param: string, doubled: bool, opts: seq<string>)

  const START := State(InParam, 0, ' ', "", false, [])

  predicate ValidChar(c: char) {
    c == '-' || c == '_' || '0' <= c <= '9' || 'a' <= c <= 'z' || 'A' <= c <= 'Z'
  }

  predicate IsQuote(c: char) {
    c == '\'' || c == '"'
  }

  /** Replace each doubled `q` by a single one, from left to right. */
  function Undouble(s: string, q: char): (r: string)
  {
    if s == [] then []
    else if |s| > 1 && s[0] == q && s[1] == q then [q] + Undouble(s[2..], q)
    else [s[0]] + Undouble(s[1..], q)
  }

  /** The input, which a comma ends. */
  function CharAt(s: string, i: nat): (c: char)
    requires i <= |s|
  {
    if i < |s| then s[i] else ','
  }

  predicate Fits(st: State, i: nat) {
    && st.prev <= i && (st.phase.PastQuote? ==> st.prev < i)
    && (st.phase.InQuoted? || st.phase.PastQuote? ==> IsQuote(st.quote))
  }

  /** What the parser does with the character at `i`. */
  function Step(s: string, i: nat, st: State): (r: Result<State, ParseError>)
    requires i <= |s| && Fits(st, i)
    ensures r.Ok? ==> Fits(r.value, i + 1)
  {
    var c := CharAt(s, i);
    match st.phase
    case InParam => StepParam(s, i, c, st)
    case InValue => StepValue(s, i, c, st)
    case InQuoted => if c == st.quote then Ok(st.(phase := PastQuote)) else Ok(st)
    case PastQuote => StepPast(s, i, c, st)
  }

  function StepValue(s: string, i: nat, c: char, st: State): (r: Result<State, ParseError>)
    requires i <= |s| && Fits(st, i) && st.phase.InValue?
    ensures r.Ok? ==> Fits(r.value, i + 1)
  {
    if IsQuote(c) && i == st.prev then
      Ok(st.(quote := c, prev := i + 1, doubled := false, phase := InQuoted))
    else if c == ',' then
      Ok(st.(prev := i + 1, opts := st.opts + [st.param + "=" + s[st.prev..i]], phase := InParam))
    else Ok(st)
  }

  function StepPast(s: string, i: nat, c: char, st: State): (r: Result<State, ParseError>)
    requires i <= |s| && Fits(st, i) && st.phase.PastQuote?
    ensures r.Ok? ==> Fits(r.value, i + 1)
  {
    if c == ',' then
      var raw := s[st.prev..i - 1];
      var value := if st.doubled then Undouble(raw, st.quote) else raw;
      Ok(st.(prev := i + 1, opts := st.opts + [st.param + "=" + value], phase := InParam))
    else if c == st.quote then Ok(st.(phase := InQuoted, doubled := true))
    else Err(AfterQuote)
  }

  function StepParam(s: string, i: nat, c: char, st: State): (r: Result<State, ParseError>)
    requires i <= |s| && Fits(st, i) && st.phase.InParam?
    ensures r.Ok? ==> Fits(r.value, i + 1)
  {
    if c == ',' || c == '=' then
      var param := s[st.prev..i];
      if |param| == 0 then Err(EmptyOption)
      else if param[0] == '-' then Err(OptionName)
      else if c == '=' then Ok(st.(param := param, prev := i + 1, phase := InValue))
      else Ok(st.(param := param, prev := i + 1, opts := st.opts + [param]))
    else if c == '.' then
      if s[st.prev..i] != "env" && s[st.prev..i] != "x-systemd" then Err(BadOption) else Ok(st)
    else if !ValidChar(c) then Err(BadOption)
    else Ok(st)
  }

  /** Read on from `i` to the end of the input. */
  function ReadOn(s: string, i: nat, st: State): (r: Result<State, ParseError>)
    requires i <= |s| + 1 && Fits(st, i)
    decreases |s| + 1 - i
  {
    if i == |s| + 1 then Ok(st)
    else
      var next := Step(s, i, st);
      if next.Err? then next else ReadOn(s, i + 1, next.value)
  }

  /** The verdict on the state the input ends in. */
  function Conclude(s: string, st: State): (r: Result<seq<string>, ParseError>)
  {
    match st.phase
    case InParam => if st.prev > |s| then Ok(st.opts) else Err(Syntax)
    case InValue => Err(Syntax)
    case InQuoted => Err(UnterminatedQuote)
    case PastQuote => Err(AfterQuote)
  }

  function Parse(text: string): (r: Result<seq<string>, ParseError>)
  {
    var s := TrimSpace(text);
    if s == "" then Ok([])
    else
      var end := ReadOn(s, 0, START);
      if end.Err? then Err(end.error) else Conclude(s, end.value)
  }

  /** Input that is read to its end leaves the parser with all of it consumed, or in a quote. */
  lemma {:induction false} EndStates(s: string, i: nat, st: State)
    requires i <= |s| && Fits(st, i) && ReadOn(s, i, st).Ok?
    ensures var end := ReadOn(s, i, st).value;
      (end.phase.InParam? && end.prev == |s| + 1) || end.phase.InQuoted?
    decreases |s| - i
  {
    var next := Step(s, i, st);
    if i < |s| {
      EndStates(s, i + 1, next.value);
    } else {
      assert ReadOn(s, i, st) == ReadOn(s, i + 1, next.value) == next;
    }
  }

  /** So parsing never ends in a plain syntax error, and misses its end only inside a quote. */
  lemma {:induction false} ParseNeverSyntax(text: string)
    ensures Parse(text) != Err(Syntax)
  {
    var s := TrimSpace(text);
    if s != "" && ReadOn(s, 0, START).Ok? {
      EndStates(s, 0, START);
    } else if s != "" {
      StepErrors(s, 0, START);
    }
  }

  lemma {:induction false} StepErrors(s: string, i: nat, st: State)
    requires i <= |s| + 1 && Fits(st, i) && ReadOn(s, i, st).Err?
    ensures ReadOn(s, i, st).error in {BadOption, OptionName, EmptyOption, AfterQuote}
    decreases |s| + 1 - i
  {
    var next := Step(s, i, st);
    if next.Ok? {
      StepErrors(s, i + 1, next.value);
    }
  }

  /** The state after the first `i` characters. */
  function ReadTo(s: string, i: nat): (r: Result<State, ParseError>)
    requires i <= |s| + 1
    ensures r.Ok? ==> Fits(r.value, i)
  {
    if i == 0 then Ok(START)
    else
      var before := ReadTo(s, i - 1);
      if before.Err? then before else Step(s, i - 1, before.value)
  }

  lemma {:induction false} ReadToOn(s: string, i: nat)
    requires i <= |s| + 1 && ReadTo(s, i).Ok?
    ensures ReadOn(s, 0, START) == ReadOn(s, i, ReadTo(s, i).value)
  {
    if i > 0 {
      ReadToOn(s, i - 1);
      OneStep(s, i - 1, ReadTo(s, i - 1).value, ReadTo(s, i).value);
    }
  }

  /** An option name that starts with '-' ends at `i`. */
  predicate DashedName(s: string, i: nat)
    requires i <= |s|
  {
    && ReadTo(s, i).Ok? && (CharAt(s, i) == ',' || CharAt(s, i) == '=')
    && var st := ReadTo(s, i).value;
    st.phase.InParam? && st.prev < i && s[st.prev] == '-'
  }

  lemma {:induction false} DashedNameFrom(s: string, i: nat)
    requires i <= |s| + 1 && ReadTo(s, i).Ok? && ReadOn(s, i, ReadTo(s, i).value) == Err(OptionName)
    ensures exists j :: i <= j <= |s| && DashedName(s, j)
    decreases |s| + 1 - i
  {
    var st := ReadTo(s, i).value;
    var next := Step(s, i, st);
    if next.Ok? {
      assert ReadTo(s, i + 1) == next;
      DashedNameFrom(s, i + 1);
    } else {
      assert DashedName(s, i);
    }
  }

  /** A name is refused for how it starts exactly when it starts with '-'. */
  lemma {:induction false} OptionNameIff(text: string)
    ensures Parse(text) == Err(OptionName) <==>
      var s := TrimSpace(text); s != "" && exists i :: 0 <= i <= |s| && DashedName(s, i)
  {
    var s := TrimSpace(text);
    if s != "" {
      if Parse(text) == Err(OptionName) {
        DashedNameFrom(s, 0);
      }
      if exists i :: 0 <= i <= |s| && DashedName(s, i) {
        var i :| 0 <= i <= |s| && DashedName(s, i);
        ReadToOn(s, i);
        assert Step(s, i, ReadTo(s, i).value) == Err(OptionName);
      }
    }
  }

  /** The parser. */
  method ParseHelperOptionString(text: string) returns (r: Result<seq<string>, ParseError>)
    ensures r == Parse(text)
  {
    var s := TrimSpace(text);
    if s == "" {
      return Ok([]);
    }
    var phase, prev, quote, param, doubled, opts := InParam, 0, ' ', "", false, [];
    for i := 0 to |s| + 1
      invariant Fits(State(phase, prev, quote, param, doubled, opts), i)
      invariant ReadOn(s, 0, START) == ReadOn(s, i, State(phase, prev, quote, param, doubled, opts))
    {
      var c := if i < |s| then s[i] else ',';
      match phase {
        case InParam =>
          if c == ',' || c == '=' {
            param := s[prev..i];
            if |param| == 0 {
              return Err(EmptyOption);
            }
            if param[0] == '-' {
              return Err(OptionName);
            }
            prev := i + 1;
            if c == '=' {
              phase := InValue;
            } else {
              opts := opts + [param];
            }
          } else if c == '.' {
            if s[prev..i] != "env" && s[prev..i] != "x-systemd" {
              return Err(BadOption);
            }
          } else if !ValidChar(c) {
            return Err(BadOption);
          }
        case InValue =>
          if IsQuote(c) {
            if i == prev {
              quote, prev, doubled, phase := c, i + 1, false, InQuoted;
            }
          } else if c == ',' {
            var value := s[prev..i];
            prev, opts, phase := i + 1, opts + [param + "=" + value], InParam;
          }
        case InQuoted =>
          if c == quote {
            phase := PastQuote;
          }
        case PastQuote =>
          if c == ',' {
            var value := s[prev..i - 1];
            if doubled {
              value := Undouble(value, quote);
            }
            prev, opts, phase := i + 1, opts + [param + "=" + value], InParam;
          } else if c == quote {
            phase, doubled := InQuoted, true;
          } else {
            return Err(AfterQuote);
          }
      }
    }
    if phase.InParam? && prev > |s| {
      return Ok(opts);
    }
    match phase {
      case InQuoted => return Err(UnterminatedQuote);
      case PastQuote => return Err(AfterQuote);
      case InParam => return Err(Syntax);
      case InValue => return Err(Syntax);
    }
  }

  // --- Rendering --------------------------------------------------------------------------

  /** An option: a name, a name with a plain value, or a name with a value in quotes `q`. */
  datatype Opt = Bare(name: string) | Plain(name: string, value: string) | Quoted(name: string, value: string, q: char)

  /** A name may only have these characters, and a dot after certain words. */
  predicate Fine(t: string)
  {
    forall k :: 0 <= k < |t| ==> FineAt(t[..k], t[k])
  }

  predicate FineAt(t: string, c: char)
  {
    if c == '.' then t == "env" || t == "x-systemd" else ValidChar(c)
  }

  predicate ValidName(name: string)
  {
    name != "" && name[0] != '-' && Fine(name)
  }

  /** A plain value has no comma and does not look quoted; a quoted one is anything. */
  predicate Acceptable(o: Opt)
  {
    && ValidName(o.name)
    && match o
       case Bare(_) => true
       case Plain(_, v) => ',' !in v && (v != "" ==> !IsQuote(v[0]))
       case Quoted(_, _, q) => IsQuote(q)
  }

  /** There is no space to lose at the end. */
  predicate ValidOpt(o: Opt)
  {
    Acceptable(o) && (o.Plain? && o.value != "" ==> !IsSpace(o.value[|o.value| - 1]))
  }

  function Double(v: string, q: char): (r: string)
  {
    if v == [] then [] else (if v[0] == q then [q, q] else [v[0]]) + Double(v[1..], q)
  }

  function Render(o: Opt): (text: string)
  {
    match o
    case Bare(name) => name
    case Plain(name, v) => name + "=" + v
    case Quoted(name, v, q) => name + "=" + ([q] + Double(v, q) + [q])
  }

  /** What an option is parsed as. */
  function Meaning(o: Opt): (text: string)
  {
    if o.Bare? then o.name else o.name + "=" + o.value
  }

  function RenderAll(os: seq<Opt>): (text: string)
  {
    if os == [] then ""
    else if |os| == 1 then Render(os[0])
    else Render(os[0]) + "," + RenderAll(os[1..])
  }

  function Meanings(os: seq<Opt>): (r: seq<string>)
  {
    if os == [] then [] else [Meaning(os[0])] + Meanings(os[1..])
  }

  // --- Parsing undoes rendering -----------------------------------------------------------

  lemma {:induction false} UndoubleDouble(v: string, q: char)
    ensures Undouble(Double(v, q), q) == v
    ensures q !in v ==> Double(v, q) == v
  {
    if v != [] {
      UndoubleDouble(v[1..], q);
      var rest := Double(v[1..], q);
      if v[0] == q {
        assert ([q, q] + rest)[2..] == rest;
        assert Undouble([q, q] + rest, q) == [q] + Undouble(rest, q);
      } else {
        assert ([v[0]] + rest)[1..] == rest;
        assert Undouble([v[0]] + rest, q) == [v[0]] + Undouble(rest, q);
      }
    }
  }

  /** The text `t` stands at `i` in the input. */
  predicate Stands(s: string, i: nat, t: string)
  {
    i + |t| <= |s| && forall k :: 0 <= k < |t| ==> s[i + k] == t[k]
  }

  lemma {:induction false} StandsAt(s: string, i: nat, t: string, u: string)
    requires Stands(s, i, t + u)
    ensures Stands(s, i, t) && Stands(s, i + |t|, u)
  {
    forall k | 0 <= k < |t| ensures s[i + k] == t[k] {
      assert (t + u)[k] == t[k];
    }
    forall k | 0 <= k < |u| ensures s[i + |t| + k] == u[k] {
      assert (t + u)[|t| + k] == u[k];
    }
  }

  lemma {:induction false} StandsChar(s: string, i: nat, c: char)
    requires Stands(s, i, [c])
    ensures i < |s| && s[i] == c
  {
    assert s[i + 0] == [c][0];
  }

  lemma {:induction false} StandsSlice(s: string, i: nat, t: string, k: nat)
    requires Stands(s, i, t) && k <= |t|
    ensures s[i..i + k] == t[..k]
    ensures t[..|t|] == t
  {
    forall j | 0 <= j < k ensures s[i..i + k][j] == t[j] {
    }
  }

  lemma {:induction false} NameStep(s: string, a: nat, name: string, k: nat, st: State)
    requires Stands(s, a, name) && Fine(name) && k < |name|
    requires st.phase.InParam? && st.prev == a
    ensures Step(s, a + k, st) == Ok(st)
  {
    assert s[a + k] == name[k];
    StandsSlice(s, a, name, k);
  }

  /** The first `k` characters of a name change nothing. */
  lemma {:induction false} ReadName(s: string, a: nat, name: string, k: nat, st: State)
    requires Stands(s, a, name) && Fine(name) && k <= |name|
    requires st.phase.InParam? && st.prev == a
    ensures ReadOn(s, a, st) == ReadOn(s, a + k, st)
    decreases k
  {
    if k > 0 {
      ReadName(s, a, name, k - 1, st);
      NameStep(s, a, name, k - 1, st);
      OneStep(s, a + k - 1, st, st);
    }
  }

  lemma {:induction false} OneStep(s: string, i: nat, st: State, next: State)
    requires i <= |s| && Fits(st, i) && Step(s, i, st) == Ok(next)
    ensures Fits(next, i + 1) && ReadOn(s, i, st) == ReadOn(s, i + 1, next)
  {
  }

  /** A plain value changes nothing until its comma. */
  lemma {:induction false} ReadPlain(s: string, a: nat, v: string, k: nat, st: State)
    requires Stands(s, a, v) && ',' !in v && (v != "" ==> !IsQuote(v[0])) && k <= |v|
    requires st.phase.InValue? && st.prev == a
    ensures ReadOn(s, a, st) == ReadOn(s, a + k, st)
    decreases k
  {
    if k > 0 {
      ReadPlain(s, a, v, k - 1, st);
      assert s[a + (k - 1)] == v[k - 1];
      assert v[k - 1] in v;
      OneStep(s, a + k - 1, st, st);
    }
  }

  /** A value with its quotes doubled is read to its end, noting whether there were any. */
  lemma {:induction false} ReadDoubled(s: string, i: nat, v: string, st: State)
    requires st.phase.InQuoted? && Fits(st, i) && Stands(s, i, Double(v, st.quote))
    ensures ReadOn(s, i, st) ==
      ReadOn(s, i + |Double(v, st.quote)|, st.(doubled := st.doubled || st.quote in v))
    decreases |v|
  {
    if v != [] {
      var q, rest := st.quote, Double(v[1..], st.quote);
      if v[0] == q {
        StandsAt(s, i, [q, q], rest);
        ReadPair(s, i, st);
        ReadDoubled(s, i + 2, v[1..], st.(doubled := true));
      } else {
        StandsAt(s, i, [v[0]], rest);
        StandsChar(s, i, v[0]);
        OneStep(s, i, st, st);
        ReadDoubled(s, i + 1, v[1..], st);
      }
    }
  }

  /** A doubled quote inside quotes is noted. */
  lemma {:induction false} ReadPair(s: string, i: nat, st: State)
    requires st.phase.InQuoted? && Fits(st, i) && Stands(s, i, [st.quote, st.quote])
    ensures ReadOn(s, i, st) == ReadOn(s, i + 2, st.(doubled := true))
  {
    assert [st.quote] + [st.quote] == [st.quote, st.quote];
    StandsAt(s, i, [st.quote], [st.quote]);
    StandsChar(s, i, st.quote);
    StandsChar(s, i + 1, st.quote);
    var mid := st.(phase := PastQuote);
    OneStep(s, i, st, mid);
    OneStep(s, i + 1, mid, st.(doubled := true));
  }

  /** One rendered option followed by a comma is read as what it means. */
  lemma {:induction false} ReadOption(s: string, a: nat, o: Opt, st: State) returns (next: State)
    requires Acceptable(o) && Stands(s, a, Render(o)) && CharAt(s, a + |Render(o)|) == ','
    requires st.phase.InParam? && st.prev == a
    ensures Reads(s, a, st, |Render(o)| + 1, next, Meaning(o))
  {
    match o {
      case Bare(name) =>
        next := ReadBare(s, a, name, st);
      case Plain(name, v) =>
        next := ReadPlainOption(s, a, name, v, st);
      case Quoted(name, v, q) =>
        next := ReadQuotedOption(s, a, name, v, q, st);
    }
  }

  /** Reading `n` characters from `a` adds the option `text`, and is ready for another. */
  ghost predicate Reads(s: string, a: nat, st: State, n: nat, next: State, text: string)
    requires a + n <= |s| + 1 && Fits(st, a)
  {
    && next.phase.InParam? && next.prev == a + n && next.opts == st.opts + [text]
    && ReadOn(s, a, st) == ReadOn(s, a + n, next)
  }

  lemma {:induction false} ReadPlainOption(s: string, a: nat, name: string, v: string, st: State) returns (next: State)
    requires Acceptable(Plain(name, v)) && Stands(s, a, name + "=" + v) && CharAt(s, a + |name + "=" + v|) == ','
    requires st.phase.InParam? && st.prev == a
    ensures Reads(s, a, st, |name + "=" + v| + 1, next, name + "=" + v)
  {
    var mid := ReadEquals(s, a, name, v, st);
    next := ReadPlainValue(s, a + |name| + 1, v, mid);
  }

  lemma {:induction false} ReadQuotedOption(
    s: string, a: nat, name: string, v: string, q: char, st: State) returns (next: State)
    requires ValidName(name) && IsQuote(q) && Stands(s, a, name + "=" + ([q] + Double(v, q) + [q]))
    requires CharAt(s, a + |name| + |Double(v, q)| + 3) == ','
    requires st.phase.InParam? && st.prev == a
    ensures Reads(s, a, st, |name| + |Double(v, q)| + 4, next, name + "=" + v)
  {
    var mid := ReadEquals(s, a, name, [q] + Double(v, q) + [q], st);
    next := ReadQuoted(s, a + |name| + 1, v, q, mid);
  }

  lemma {:induction false} ReadBare(s: string, a: nat, name: string, st: State) returns (next: State)
    requires ValidName(name) && Stands(s, a, name) && CharAt(s, a + |name|) == ','
    requires st.phase.InParam? && st.prev == a
    ensures Reads(s, a, st, |name| + 1, next, name)
  {
    ReadName(s, a, name, |name|, st);
    StandsSlice(s, a, name, |name|);
    next := st.(param := name, prev := a + |name| + 1, opts := st.opts + [name]);
    OneStep(s, a + |name|, st, next);
  }

  lemma {:induction false} ReadPlainValue(s: string, b: nat, v: string, st: State) returns (next: State)
    requires Stands(s, b, v) && ',' !in v && (v != "" ==> !IsQuote(v[0])) && CharAt(s, b + |v|) == ','
    requires st.phase.InValue? && st.prev == b
    ensures next.phase.InParam? && next.prev == b + |v| + 1 && next.opts == st.opts + [st.param + "=" + v]
    ensures ReadOn(s, b, st) == ReadOn(s, b + |v| + 1, next)
  {
    ReadPlain(s, b, v, |v|, st);
    StandsSlice(s, b, v, |v|);
    next := st.(prev := b + |v| + 1, opts := st.opts + [st.param + "=" + v], phase := InParam);
    OneStep(s, b + |v|, st, next);
  }

  /** A name and an equals sign lead to the value. */
  lemma {:induction false} ReadEquals(s: string, a: nat, name: string, rest: string, st: State) returns (next: State)
    requires ValidName(name) && Stands(s, a, name + "=" + rest)
    requires st.phase.InParam? && st.prev == a
    ensures next == st.(param := name, prev := a + |name| + 1, phase := InValue)
    ensures Stands(s, a + |name| + 1, rest)
    ensures ReadOn(s, a, st) == ReadOn(s, a + |name| + 1, next)
  {
    StandsAt(s, a, name + "=", rest);
    StandsAt(s, a, name, "=");
    StandsChar(s, a + |name|, '=');
    ReadName(s, a, name, |name|, st);
    StandsSlice(s, a, name, |name|);
    next := st.(param := name, prev := a + |name| + 1, phase := InValue);
    OneStep(s, a + |name|, st, next);
  }

  /** A quote at the start of a value opens it. */
  lemma {:induction false} OpenQuote(s: string, b: nat, q: char, st: State)
    requires IsQuote(q) && b < |s| && s[b] == q && st.phase.InValue? && st.prev == b
    ensures ReadOn(s, b, st) == ReadOn(s, b + 1, st.(quote := q, prev := b + 1, doubled := false, phase := InQuoted))
  {
    OneStep(s, b, st, st.(quote := q, prev := b + 1, doubled := false, phase := InQuoted));
  }

  /** A quote and a comma end the value `v`, which was read up to `e`. */
  lemma {:induction false} CloseQuote(s: string, e: nat, v: string, st: State)
    requires st.phase.InQuoted? && Fits(st, e) && e < |s| && s[e] == st.quote && CharAt(s, e + 1) == ','
    requires v == if st.doubled then Undouble(s[st.prev..e], st.quote) else s[st.prev..e]
    ensures ReadOn(s, e, st) ==
      ReadOn(s, e + 2, st.(prev := e + 2, opts := st.opts + [st.param + "=" + v], phase := InParam))
  {
    var past := st.(phase := PastQuote);
    OneStep(s, e, st, past);
    OneStep(s, e + 1, past, st.(prev := e + 2, opts := st.opts + [st.param + "=" + v], phase := InParam));
  }

  /** A quote and the value after it are read. */
  lemma {:induction false} OpenedUpTo(s: string, b: nat, st: State, q: char, v: string) returns (read: State)
    requires st.phase.InValue? && st.prev == b && IsQuote(q) && Stands(s, b, [q] + Double(v, q))
    ensures read == st.(quote := q, prev := b + 1, doubled := q in v, phase := InQuoted)
    ensures var e := b + 1 + |Double(v, q)|;
      e <= |s| && s[b + 1..e] == Double(v, q) && ReadOn(s, b, st) == ReadOn(s, e, read)
  {
    StandsAt(s, b, [q], Double(v, q));
    StandsChar(s, b, q);
    StandsSlice(s, b + 1, Double(v, q), |Double(v, q)|);
    OpenQuote(s, b, q, st);
    var inside := st.(quote := q, prev := b + 1, doubled := false, phase := InQuoted);
    ReadDoubled(s, b + 1, v, inside);
    read := inside.(doubled := q in v);
  }

  /** A quoted value and the comma after it. */
  lemma {:induction false} ReadQuoted(s: string, b: nat, v: string, q: char, st: State) returns (next: State)
    requires IsQuote(q) && Stands(s, b, [q] + Double(v, q) + [q])
    requires CharAt(s, b + |Double(v, q)| + 2) == ','
    requires st.phase.InValue? && st.prev == b
    ensures next.phase.InParam? && next.prev == b + |Double(v, q)| + 3 && next.opts == st.opts + [st.param + "=" + v]
    ensures ReadOn(s, b, st) == ReadOn(s, b + |Double(v, q)| + 3, next)
  {
    var raw := Double(v, q);
    var e := b + 1 + |raw|;
    StandsAt(s, b, [q] + raw, [q]);
    StandsChar(s, e, q);
    var read := OpenedUpTo(s, b, st, q, v);
    UndoubleDouble(v, q);
    CloseQuote(s, e, v, read);
    next := read.(prev := e + 2, opts := st.opts + [st.param + "=" + v], phase := InParam);
  }

  /** Reading on from `a` ends well, with the options `opts`. */
  ghost predicate ReadsTo(s: string, a: nat, st: State, opts: seq<string>)
    requires a <= |s| + 1 && Fits(st, a)
  {
    ReadOn(s, a, st).Ok? && Conclude(s, ReadOn(s, a, st).value) == Ok(opts)
  }

  lemma {:induction false} ReadOptions(s: string, a: nat, os: seq<Opt>, st: State)
    requires os != [] && forall o :: o in os ==> Acceptable(o)
    requires Stands(s, a, RenderAll(os)) && a + |RenderAll(os)| == |s|
    requires st.phase.InParam? && st.prev == a
    ensures ReadsTo(s, a, st, st.opts + Meanings(os))
    decreases |os|
  {
    if |os| == 1 {
      ReadLast(s, a, os[0], st);
      assert os == [os[0]];
    } else {
      var next := ReadHead(s, a, os, st);
      ReadOptions(s, next.prev, os[1..], next);
    }
  }

  /** Reading the first of several options leaves the rest to be read. */
  lemma {:induction false} ReadHead(s: string, a: nat, os: seq<Opt>, st: State) returns (next: State)
    requires |os| > 1 && forall o :: o in os ==> Acceptable(o)
    requires Stands(s, a, RenderAll(os)) && a + |RenderAll(os)| == |s|
    requires st.phase.InParam? && st.prev == a
    ensures next.phase.InParam? && Stands(s, next.prev, RenderAll(os[1..])) && next.prev + |RenderAll(os[1..])| == |s|
    ensures ReadsTo(s, next.prev, next, next.opts + Meanings(os[1..])) ==> ReadsTo(s, a, st, st.opts + Meanings(os))
  {
    CommaAfter(s, a, os);
    next := ReadOption(s, a, os[0], st);
    MeaningsSplit(st.opts, os);
    if ReadsTo(s, next.prev, next, next.opts + Meanings(os[1..])) {
      ReadFirst(s, a, st, |Render(os[0])| + 1, next, Meaning(os[0]), Meanings(os[1..]));
    }
  }

  lemma {:induction false} MeaningsSplit(opts: seq<string>, os: seq<Opt>)
    requires os != []
    ensures opts + [Meaning(os[0])] + Meanings(os[1..]) == opts + Meanings(os)
  {
  }

  lemma {:induction false} ReadFirst(
    s: string, a: nat, st: State, n: nat, next: State, text: string, rest: seq<string>)
    requires a + n <= |s| + 1 && Fits(st, a) && Fits(next, a + n)
    requires Reads(s, a, st, n, next, text) && ReadsTo(s, a + n, next, next.opts + rest)
    ensures ReadsTo(s, a, st, st.opts + [text] + rest)
  {
  }

  lemma {:induction false} ReadLast(s: string, a: nat, o: Opt, st: State)
    requires Acceptable(o) && Stands(s, a, Render(o)) && a + |Render(o)| == |s|
    requires st.phase.InParam? && st.prev == a
    ensures ReadsTo(s, a, st, st.opts + Meanings([o]))
  {
    var next := ReadOption(s, a, o, st);
    assert ReadOn(s, a, st) == Ok(next);
    assert Meanings([o]) == [Meaning(o)];
  }

  lemma {:induction false} CommaAfter(s: string, a: nat, os: seq<Opt>)
    requires |os| > 1 && Stands(s, a, RenderAll(os))
    ensures var n := |Render(os[0])|;
      && Stands(s, a, Render(os[0])) && CharAt(s, a + n) == ',' && Stands(s, a + n + 1, RenderAll(os[1..]))
      && |RenderAll(os)| == n + 1 + |RenderAll(os[1..])|
  {
    JoinStands(s, a, Render(os[0]), RenderAll(os[1..]));
  }

  lemma {:induction false} JoinStands(s: string, a: nat, text: string, rest: string)
    requires Stands(s, a, text + "," + rest)
    ensures Stands(s, a, text) && CharAt(s, a + |text|) == ',' && Stands(s, a + |text| + 1, rest)
  {
    StandsAt(s, a, text + ",", rest);
    StandsAt(s, a, text, ",");
    StandsChar(s, a + |text|, ',');
  }

  lemma {:induction false} RenderEnds(o: Opt)
    requires ValidOpt(o)
    ensures var t := Render(o); t != "" && !IsSpace(t[0]) && !IsSpace(t[|t| - 1])
  {
    assert ValidChar(o.name[0]);
    var last := o.name[|o.name| - 1];
    assert ValidChar(last) || last == '.';
  }

  lemma {:induction false} RenderAllEnds(os: seq<Opt>)
    requires os != [] && forall o :: o in os ==> ValidOpt(o)
    ensures var t := RenderAll(os); t != "" && !IsSpace(t[0]) && !IsSpace(t[|t| - 1])
    decreases |os|
  {
    RenderEnds(os[0]);
    if |os| > 1 {
      RenderAllEnds(os[1..]);
    }
  }

  /** Parsing undoes rendering, for any list of options. */
  lemma {:induction false} ParseRender(os: seq<Opt>)
    requires forall o :: o in os ==> ValidOpt(o)
    ensures Parse(RenderAll(os)) == Ok(Meanings(os))
  {
    if os != [] {
      var s := RenderAll(os);
      RenderAllEnds(os);
      assert s[0..0 + |s|] == s;
      ReadOptions(s, 0, os, START);
      assert START.opts + Meanings(os) == Meanings(os);
    }
  }

  /** Any valid name is accepted alone, one that starts with '_' too. */
  lemma {:induction false} NameAccepted(name: string)
    requires ValidName(name)
    ensures Parse(name) == Ok([name])
  {
    ParseRender([Bare(name)]);
    assert Meanings([Bare(name)]) == [name];
  }

  /** The two words after which a name may go on with a dot. */
  lemma {:induction false} DotAccepted()
    ensures Parse("env.A") == Ok(["env.A"]) && Parse("x-systemd.a") == Ok(["x-systemd.a"])
  {
    var a, b := "env.A", "x-systemd.a";
    assert a[..3] == "env" && b[..9] == "x-systemd";
    assert ValidName(a) && ValidName(b);
    NameAccepted(a);
    NameAccepted(b);
  }

  lemma {:induction false} UnderscoreAccepted()
    ensures Parse("_x") == Ok(["_x"])
  {
    assert ValidName("_x");
    NameAccepted("_x");
  }
}
