/** Which option strings the parser accepts, and which error it reports for the others
    (fs/mount_helper.go). */
module MountGrammar {
  import opened Wrappers
  import opened Text
  import opened MountHelper

  /** The characters a name may have. */
  lemma {:induction false} ValidCharIff(c: char)
    ensures ValidChar(c) <==> c == '-' || c == '_' || c in DIGITS || c in LOWER || c in UPPER
  {
    CharsInOrder();
    if '0' <= c <= '9' {
      assert DIGITS[(c - '0') as int] == c;
    } else if 'a' <= c <= 'z' {
      assert LOWER[(c - 'a') as int] == c;
    } else if 'A' <= c <= 'Z' {
      assert UPPER[(c - 'A') as int] == c;
    }
  }

  /** Texts one after the other, each with a comma. */
  function Ended(ts: seq<string>): (text: string)
  {
    if ts == [] then "" else Ended(ts[..|ts| - 1]) + ts[|ts| - 1] + [',']
  }

  function Texts(os: seq<Opt>): (ts: seq<string>)
    ensures |ts| == |os| && forall i :: 0 <= i < |os| ==> ts[i] == Render(os[i])
  {
    seq(|os|, i requires 0 <= i < |os| => Render(os[i]))
  }

  /** Options one after the other, each with its comma. */
  function Commas(os: seq<Opt>): (text: string)
  {
    Ended(Texts(os))
  }

  predicate AllAcceptable(os: seq<Opt>)
  {
    forall o :: o in os ==> Acceptable(o)
  }

  // --- Joining ----------------------------------------------------------------------------

  lemma {:induction false} EndedMore(ts: seq<string>, t: string)
    ensures Ended(ts + [t]) == Ended(ts) + t + [',']
  {
    assert (ts + [t])[..|ts|] == ts;
  }

  lemma {:induction false} EndedFirst(t: string, ts: seq<string>)
    ensures Ended([t] + ts) == t + [','] + Ended(ts)
  {
    if ts == [] {
      EndedMore([], t);
      assert [t] + ts == [] + [t];
    } else {
      var n := |ts| - 1;
      EndedFirst(t, ts[..n]);
      EndedFirstMore(t, ts[..n], ts[n]);
      assert ts == ts[..n] + [ts[n]];
    }
  }

  lemma {:induction false} EndedFirstMore(t: string, ts: seq<string>, last: string)
    requires Ended([t] + ts) == t + [','] + Ended(ts)
    ensures Ended([t] + (ts + [last])) == t + [','] + Ended(ts + [last])
  {
    assert [t] + (ts + [last]) == [t] + ts + [last];
    EndedMore([t] + ts, last);
    EndedMore(ts, last);
    Regroup(t + [','], Ended(ts), last, [',']);
  }

  lemma {:induction false} Regroup(a: string, b: string, c: string, d: string)
    ensures a + b + c + d == a + (b + c + d)
  {
  }

  lemma {:induction false} CommasMore(os: seq<Opt>, o: Opt)
    ensures Commas(os + [o]) == Commas(os) + Render(o) + [',']
    ensures Meanings(os + [o]) == Meanings(os) + [Meaning(o)]
    ensures AllAcceptable(os) && Acceptable(o) ==> AllAcceptable(os + [o])
  {
    assert Texts(os + [o]) == Texts(os) + [Render(o)];
    EndedMore(Texts(os), Render(o));
    MeaningsMore(os, o);
  }

  lemma {:induction false} MeaningsMore(os: seq<Opt>, o: Opt)
    ensures Meanings(os + [o]) == Meanings(os) + [Meaning(o)]
  {
    if os != [] {
      MeaningsMore(os[1..], o);
      assert (os + [o])[1..] == os[1..] + [o];
    }
  }

  lemma {:induction false} CommasFirst(o: Opt, os: seq<Opt>)
    ensures Commas([o] + os) == Render(o) + [','] + Commas(os)
  {
    assert Texts([o] + os) == [Render(o)] + Texts(os);
    EndedFirst(Render(o), Texts(os));
  }

  /** Options joined by commas, and a comma at the end. */
  lemma {:induction false} CommasJoined(os: seq<Opt>)
    requires os != []
    ensures RenderAll(os) + [','] == Commas(os)
  {
    CommasFirst(os[0], os[1..]);
    assert os == [os[0]] + os[1..];
    if |os| == 1 {
      assert Commas(os[1..]) == "";
    } else {
      CommasJoined(os[1..]);
      JoinedEnd(Render(os[0]), RenderAll(os[1..]));
    }
  }

  lemma {:induction false} JoinedEnd(t: string, rest: string)
    ensures t + "," + rest + [','] == t + [','] + (rest + [','])
  {
  }

  lemma {:induction false} Grouped(a: string, b: string, c: string)
    ensures a + (b + c) == a + b + c
  {
  }

  lemma {:induction false} DoubleMore(v: string, c: char, q: char)
    ensures Double(v + [c], q) == Double(v, q) + if c == q then [q, q] else [c]
    ensures q in v + [c] <==> q in v || c == q
  {
    if v == [] {
      assert v + [c] == [c] && [c][1..] == [];
    } else {
      assert (v + [c])[0] == v[0] && (v + [c])[1..] == v[1..] + [c];
      DoubleMore(v[1..], c, q);
      Grouped(
        if v[0] == q then [q, q] else [v[0]], Double(v[1..], q), if c == q then [q, q] else [c]);
    }
  }

  // --- What was read ----------------------------------------------------------------------

  /** The state after the first `i` characters of the input `z`, which ends in a comma, says what was
      read: the options `os`, and then part of a name, or of a plain value, or of the quoted value `v`. */
  ghost predicate HasRead(z: string, i: nat, st: State, os: seq<Opt>, v: string)
  {
    && i <= |z| && Fits(st, i) && AllAcceptable(os) && st.opts == Meanings(os)
    && match st.phase
       case InParam => z[..st.prev] == Commas(os) && Fine(z[st.prev..i])
       case InValue =>
         && ValidName(st.param) && z[..st.prev] == Commas(os) + (st.param + ['='])
         && ',' !in z[st.prev..i] && (st.prev < i ==> !IsQuote(z[st.prev]))
       case InQuoted =>
         && ValidName(st.param) && z[..st.prev] == Commas(os) + (st.param + ['=', st.quote])
         && z[st.prev..i] == Double(v, st.quote) && (st.doubled <==> st.quote in v)
       case PastQuote =>
         && ValidName(st.param) && z[..st.prev] == Commas(os) + (st.param + ['=', st.quote])
         && z[st.prev..i - 1] == Double(v, st.quote) && z[i - 1] == st.quote && (st.doubled <==> st.quote in v)
  }

  lemma {:induction false} FineMore(t: string, c: char)
    requires Fine(t) && FineAt(t, c)
    ensures Fine(t + [c])
  {
    forall k | 0 <= k < |t + [c]| ensures FineAt((t + [c])[..k], (t + [c])[k]) {
      assert (t + [c])[..k] == t[..k];
      assert t[..|t|] == t;
    }
  }

  lemma {:induction false} SliceMore(z: string, a: nat, i: nat)
    requires a <= i < |z|
    ensures z[a..i + 1] == z[a..i] + [z[i]]
    ensures z[..i + 1] == z[..a] + (z[a..i] + [z[i]])
  {
  }

  /** A name ends an option, or is to be followed by a value. */
  lemma {:induction false} NameRead(z: string, i: nat, st: State, os: seq<Opt>) returns (more: seq<Opt>)
    requires i < |z| && st.phase.InParam? && HasRead(z, i, st, os, "") && ValidName(z[st.prev..i])
    ensures var param := z[st.prev..i];
      && (z[i] == ',' ==> HasRead(z, i + 1, st.(param := param, prev := i + 1, opts := st.opts + [param]), more, ""))
      && (z[i] == '=' ==> HasRead(z, i + 1, st.(param := param, prev := i + 1, phase := InValue), os, ""))
  {
    var param := z[st.prev..i];
    SliceMore(z, st.prev, i);
    more := os + [Bare(param)];
    CommasMore(os, Bare(param));
    Grouped(Commas(os), param, [z[i]]);
    assert z[i] == ',' ==> z[..i + 1] == Commas(more);
  }

  /** Part of a name, and one character more. */
  lemma {:induction false} MoreParam(z: string, s: string, i: nat, st: State, next: State, os: seq<Opt>)
    returns (more: seq<Opt>)
    requires z == s + [','] && i <= |s| && st.phase.InParam? && HasRead(z, i, st, os, "")
    requires Step(s, i, st) == Ok(next)
    ensures HasRead(z, i + 1, next, more, "")
  {
    var param := z[st.prev..i];
    assert s[st.prev..i] == param && CharAt(s, i) == z[i];
    if z[i] == ',' || z[i] == '=' {
      more := NameRead(z, i, st, os);
      more := if z[i] == ',' then more else os;
    } else {
      more := os;
      SliceMore(z, st.prev, i);
      FineMore(param, z[i]);
    }
  }

  /** A plain value ends an option. */
  lemma {:induction false} ValueRead(z: string, i: nat, st: State, os: seq<Opt>) returns (more: seq<Opt>)
    requires i < |z| && st.phase.InValue? && HasRead(z, i, st, os, "") && z[i] == ','
    ensures HasRead(
      z, i + 1, st.(prev := i + 1, opts := st.opts + [st.param + "=" + z[st.prev..i]], phase := InParam), more, "")
  {
    var value := z[st.prev..i];
    SliceMore(z, st.prev, i);
    var o := Plain(st.param, value);
    more := os + [o];
    CommasMore(os, o);
    PlainJoined(Commas(os), st.param, value);
  }

  /** A quote opens a value. */
  lemma {:induction false} QuoteRead(z: string, i: nat, st: State, os: seq<Opt>)
    requires i < |z| && st.phase.InValue? && HasRead(z, i, st, os, "") && IsQuote(z[i]) && i == st.prev
    ensures HasRead(z, i + 1, st.(quote := z[i], prev := i + 1, doubled := false, phase := InQuoted), os, "")
  {
    SliceMore(z, i, i);
    assert z[..i + 1] == Commas(os) + (st.param + ['=', z[i]]);
    assert z[i + 1..i + 1] == Double("", z[i]);
  }

  /** Part of a plain value, and one character more. */
  lemma {:induction false} MoreValue(z: string, s: string, i: nat, st: State, next: State, os: seq<Opt>)
    returns (more: seq<Opt>)
    requires z == s + [','] && i <= |s| && st.phase.InValue? && HasRead(z, i, st, os, "")
    requires Step(s, i, st) == Ok(next)
    ensures HasRead(z, i + 1, next, more, "")
  {
    assert s[st.prev..i] == z[st.prev..i] && CharAt(s, i) == z[i];
    more := os;
    if IsQuote(z[i]) && i == st.prev {
      QuoteRead(z, i, st, os);
    } else if z[i] == ',' {
      more := ValueRead(z, i, st, os);
    } else {
      SliceMore(z, st.prev, i);
    }
  }

  lemma {:induction false} PlainJoined(a: string, name: string, v: string)
    ensures a + (name + ['=']) + (v + [',']) == a + Render(Plain(name, v)) + [',']
    ensures Meaning(Plain(name, v)) == name + "=" + v
  {
  }

  lemma {:induction false} QuotedJoined(a: string, name: string, v: string, q: char)
    ensures a + (name + ['=', q]) + (Double(v, q) + [q, ',']) == a + Render(Quoted(name, v, q)) + [',']
    ensures Meaning(Quoted(name, v, q)) == name + "=" + v
  {
  }

  /** Part of a quoted value, and one character more. */
  lemma {:induction false} MoreQuoted(z: string, s: string, i: nat, st: State, next: State, os: seq<Opt>, v: string)
    returns (w: string)
    requires z == s + [','] && i <= |s| && st.phase.InQuoted? && HasRead(z, i, st, os, v)
    requires Step(s, i, st) == Ok(next)
    ensures HasRead(z, i + 1, next, os, w)
  {
    assert CharAt(s, i) == z[i];
    SliceMore(z, st.prev, i);
    w := v;
    if z[i] != st.quote {
      DoubleMore(v, z[i], st.quote);
      w := v + [z[i]];
    }
  }

  /** A quote and a comma end an option. */
  lemma {:induction false} QuotedRead(z: string, i: nat, st: State, os: seq<Opt>, v: string) returns (more: seq<Opt>)
    requires i < |z| && st.phase.PastQuote? && HasRead(z, i, st, os, v) && z[i] == ','
    ensures HasRead(z, i + 1, st.(prev := i + 1, opts := st.opts + [st.param + "=" + v], phase := InParam), more, "")
  {
    var q := st.quote;
    SliceMore(z, st.prev, i);
    SliceMore(z, st.prev, i - 1);
    assert z[st.prev..i] + [z[i]] == Double(v, q) + [q, ','];
    var o := Quoted(st.param, v, q);
    more := os + [o];
    CommasMore(os, o);
    QuotedJoined(Commas(os), st.param, v, q);
  }

  /** A quote in a quoted value, and one character more. */
  lemma {:induction false} MorePast(z: string, s: string, i: nat, st: State, next: State, os: seq<Opt>, v: string)
    returns (more: seq<Opt>, w: string)
    requires z == s + [','] && i <= |s| && st.phase.PastQuote? && HasRead(z, i, st, os, v)
    requires Step(s, i, st) == Ok(next)
    ensures HasRead(z, i + 1, next, more, w)
  {
    assert CharAt(s, i) == z[i];
    var q := st.quote;
    if z[i] == ',' {
      assert s[st.prev..i - 1] == z[st.prev..i - 1];
      UndoubleDouble(v, q);
      more := QuotedRead(z, i, st, os, v);
      w := "";
    } else {
      SliceMore(z, st.prev, i);
      SliceMore(z, st.prev, i - 1);
      assert z[st.prev..i + 1] == Double(v, q) + [q, q];
      DoubleMore(v, q, q);
      more, w := os, v + [q];
    }
  }

  /** The state always says what was read. */
  lemma {:induction false} ReadsSo(z: string, s: string, i: nat) returns (os: seq<Opt>, v: string)
    requires z == s + [','] && i <= |s| + 1 && ReadTo(s, i).Ok?
    ensures HasRead(z, i, ReadTo(s, i).value, os, v)
    decreases i
  {
    if i == 0 {
      os, v := [], "";
      assert z[..0] == Commas(os) && Meanings([]) == [];
    } else {
      os, v := ReadsSo(z, s, i - 1);
      os, v := MoreRead(z, s, i - 1, ReadTo(s, i - 1).value, ReadTo(s, i).value, os, v);
    }
  }

  lemma {:induction false} MoreRead(z: string, s: string, i: nat, st: State, next: State, os: seq<Opt>, v: string)
    returns (more: seq<Opt>, w: string)
    requires z == s + [','] && i <= |s| && HasRead(z, i, st, os, v) && Step(s, i, st) == Ok(next)
    ensures HasRead(z, i + 1, next, more, w)
  {
    more, w := os, "";
    match st.phase {
      case InParam =>
        more := MoreParam(z, s, i, st, next, os);
      case InValue =>
        more := MoreValue(z, s, i, st, next, os);
      case InQuoted =>
        w := MoreQuoted(z, s, i, st, next, os, v);
      case PastQuote =>
        more, w := MorePast(z, s, i, st, next, os, v);
    }
  }

  // --- What is accepted -------------------------------------------------------------------

  /** Accepted input is a list of options joined by commas, and means what they mean. */
  lemma {:induction false} AcceptedIsRendered(s: string, opts: seq<string>) returns (os: seq<Opt>)
    requires s != "" && ReadOn(s, 0, START).Ok? && Conclude(s, ReadOn(s, 0, START).value) == Ok(opts)
    ensures AllAcceptable(os) && RenderAll(os) == s && Meanings(os) == opts
  {
    var n := |s| + 1;
    AllRead(s, n);
    ReadToOn(s, n);
    var v;
    os, v := ReadsSo(s + [','], s, n);
    assert (s + [','])[..n] == s + [','];
    assert os != [] by {
      assert Commas([]) == "";
    }
    CommasJoined(os);
    Chopped(RenderAll(os), s, ',');
  }

  lemma {:induction false} Chopped(a: string, b: string, c: char)
    requires a + [c] == b + [c]
    ensures a == b
  {
    assert (a + [c])[..|a|] == a && (b + [c])[..|b|] == b;
  }

  /** Reading that succeeds succeeds all along. */
  lemma {:induction false} AllRead(s: string, i: nat)
    requires i <= |s| + 1 && ReadOn(s, 0, START).Ok?
    ensures ReadTo(s, i).Ok?
  {
    if i > 0 {
      AllRead(s, i - 1);
      ReadToOn(s, i - 1);
    }
  }

  /** A text is accepted exactly when it is, without the space around it, a list of options with valid
      names joined by commas; and it means what they mean. */
  lemma {:induction false} ParseOkIff(text: string, opts: seq<string>)
    ensures Parse(text) == Ok(opts) <==>
      exists os :: AllAcceptable(os) && RenderAll(os) == TrimSpace(text) && Meanings(os) == opts
  {
    var s := TrimSpace(text);
    if Parse(text) == Ok(opts) {
      if s == "" {
        assert AllAcceptable([]) && RenderAll([]) == s && Meanings([]) == opts;
      } else {
        var os := AcceptedIsRendered(s, opts);
      }
    }
    if exists os :: AllAcceptable(os) && RenderAll(os) == s && Meanings(os) == opts {
      var os :| AllAcceptable(os) && RenderAll(os) == s && Meanings(os) == opts;
      if os != [] {
        CommasJoined(os);
        RenderedNotEmpty(os);
        assert s[0..0 + |s|] == s;
        ReadOptions(s, 0, os, START);
        assert START.opts + Meanings(os) == Meanings(os);
      }
    }
  }

  lemma {:induction false} RenderedNotEmpty(os: seq<Opt>)
    requires os != [] && AllAcceptable(os)
    ensures RenderAll(os) != ""
  {
    assert Acceptable(os[0]) && Render(os[0]) != "";
  }

  // --- What is refused --------------------------------------------------------------------

  /** The input begins with these options, each with its comma. */
  ghost predicate Leads(s: string, os: seq<Opt>)
  {
    AllAcceptable(os) && Commas(os) <= s + [',']
  }

  /** The name `name` cannot go on with `c`. */
  predicate BadAfter(name: string, c: char)
  {
    c != ',' && c != '=' && !FineAt(name, c)
  }

  /** What is wrong with the text `r` in place of an option. */
  ghost predicate Wrong(r: string, error: ParseError)
  {
    match error
    case EmptyOption => r == "" || r[0] == ',' || r[0] == '='
    case OptionName => exists n :: 0 < n <= |r| && DashedUpTo(r, n)
    case BadOption => exists n :: 0 <= n < |r| && BadAt(r, n)
    case UnterminatedQuote => exists name, q, v :: OpenValue(r, name, q, v)
    case AfterQuote => exists name, q, v, c :: ClosedValue(r, name, q, v, c)
    case Syntax => false
  }

  /** The first `n` characters are a name that begins with '-', and it ends there. */
  predicate DashedUpTo(r: string, n: nat)
    requires 0 < n <= |r|
  {
    r[0] == '-' && Fine(r[..n]) && (n == |r| || r[n] == ',' || r[n] == '=')
  }

  predicate BadAt(r: string, n: nat)
    requires n < |r|
  {
    Fine(r[..n]) && BadAfter(r[..n], r[n])
  }

  predicate OpenValue(r: string, name: string, q: char, v: string)
  {
    ValidName(name) && IsQuote(q) && r == name + ['='] + [q] + Double(v, q)
  }

  predicate ClosedValue(r: string, name: string, q: char, v: string, c: char)
  {
    && ValidName(name) && IsQuote(q) && c != ',' && c != q
    && name + ['='] + [q] + Double(v, q) + [q, c] <= r
  }

  /** The input fails with `error`: what follows some options is wrong. */
  ghost predicate Fails(s: string, error: ParseError)
  {
    exists os :: FailsAfter(s, os, error)
  }

  ghost predicate FailsAfter(s: string, os: seq<Opt>, error: ParseError)
  {
    Leads(s, os) && |Commas(os)| <= |s| && Wrong(s[|Commas(os)|..], error)
  }

  /** What comes before `a` is read, and the parser is ready for an option there. */
  ghost predicate ReadyAt(s: string, a: nat, st: State)
  {
    a <= |s| + 1 && st.phase.InParam? && st.prev == a && ReadOn(s, 0, START) == ReadOn(s, a, st)
  }

  /** The options in front are read. */
  lemma {:induction false} LeadRead(s: string, os: seq<Opt>) returns (st: State)
    requires Leads(s, os)
    ensures ReadyAt(s, |Commas(os)|, st)
    decreases |os|
  {
    if os == [] {
      st := START;
      assert Commas(os) == "";
    } else {
      var init, o := os[..|os| - 1], os[|os| - 1];
      LeadsLess(s, os);
      var before := LeadRead(s, init);
      st := LeadMore(s, |Commas(init)|, o, before);
    }
  }

  /** The option `o` stands at `a`, and its comma after it. */
  ghost predicate OptionAt(s: string, a: nat, o: Opt)
  {
    Acceptable(o) && Stands(s, a, Render(o)) && CharAt(s, a + |Render(o)|) == ','
  }

  lemma {:induction false} LeadMore(s: string, a: nat, o: Opt, before: State) returns (st: State)
    requires OptionAt(s, a, o) && ReadyAt(s, a, before)
    ensures ReadyAt(s, a + |Render(o)| + 1, st)
  {
    st := ReadOption(s, a, o, before);
  }

  lemma {:induction false} LeadsLess(s: string, os: seq<Opt>)
    requires Leads(s, os) && os != []
    ensures var n := |os| - 1;
      var a := |Commas(os[..n])|;
      && Leads(s, os[..n]) && |Commas(os)| == a + |Render(os[n])| + 1
      && OptionAt(s, a, os[n])
  {
    var n := |os| - 1;
    assert os[n] in os;
    assert os == os[..n] + [os[n]];
    CommasMore(os[..n], os[n]);
    PieceStands(s, Commas(os[..n]), Render(os[n]));
  }

  /** The parts of a text and a comma that the input begins with. */
  lemma {:induction false} PieceStands(s: string, a: string, t: string)
    requires a + t + [','] <= s + [',']
    ensures a <= s + [','] && Stands(s, |a|, t) && CharAt(s, |a| + |t|) == ','
  {
    var z, p := s + [','], a + t + [','];
    assert z[..|a|] == p[..|a|] == a;
    assert z[|a| + |t|] == p[|a| + |t|] == ',';
    forall k | 0 <= k < |t| ensures s[|a| + k] == t[k] {
      assert z[|a| + k] == p[|a| + k];
    }
  }

  /** After the options in front, reading fails with the error that fits what is wrong. */
  lemma {:induction false} WrongRead(s: string, a: nat, st: State, error: ParseError)
    requires a <= |s| && st.phase.InParam? && st.prev == a && Wrong(s[a..], error)
    ensures var end := ReadOn(s, a, st);
      if error.UnterminatedQuote? then end.Ok? && end.value.phase.InQuoted? else end == Err(error)
  {
    var r := s[a..];
    match error {
      case EmptyOption =>
        assert CharAt(s, a) == ',' || CharAt(s, a) == '=';
      case OptionName =>
        var n :| 0 < n <= |r| && DashedUpTo(r, n);
        NameUpTo(s, a, st, n);
        assert s[a..a + n] == r[..n];
      case BadOption =>
        var n :| 0 <= n < |r| && BadAt(r, n);
        NameUpTo(s, a, st, n);
        assert s[a..a + n] == r[..n];
      case UnterminatedQuote =>
        var name, q, v :| OpenValue(r, name, q, v);
        var read := ValueUpTo(s, a, st, name, q, v);
        OneStep(s, |s|, read, read);
      case AfterQuote =>
        var name, q, v, c :| ClosedValue(r, name, q, v, c);
        ClosedRead(s, a, st, name, q, v, c);
    }
  }

  /** Part of a name is read without effect. */
  lemma {:induction false} NameUpTo(s: string, a: nat, st: State, n: nat)
    requires st.phase.InParam? && st.prev == a && a + n <= |s| && Fine(s[a..][..n])
    ensures ReadOn(s, a, st) == ReadOn(s, a + n, st)
  {
    var t := s[a..][..n];
    forall k | 0 <= k < |t| ensures s[a + k] == t[k] {
    }
    ReadName(s, a, t, n, st);
  }

  /** A name, an equals sign, a quote and part of a value. */
  lemma {:induction false} ValueUpTo(s: string, a: nat, st: State, name: string, q: char, v: string)
    returns (read: State)
    requires st.phase.InParam? && st.prev == a && a <= |s| && ValidName(name) && IsQuote(q)
    requires name + ['='] + [q] + Double(v, q) <= s[a..]
    ensures var e := a + |name| + 2 + |Double(v, q)|;
      && e <= |s| && Fits(read, e) && ReadOn(s, a, st) == ReadOn(s, e, read)
      && read.phase.InQuoted? && read.quote == q && read.prev == a + |name| + 2
  {
    var d := Double(v, q);
    PrefixStands(s, a, name, q, d);
    var mid := ReadEquals(s, a, name, [q] + d, st);
    read := OpenedUpTo(s, a + |name| + 1, mid, q, v);
  }

  lemma {:induction false} PrefixStands(s: string, a: nat, name: string, q: char, d: string)
    requires a <= |s| && name + ['='] + [q] + d <= s[a..]
    ensures Stands(s, a, name + "=" + ([q] + d))
  {
    var t := name + "=" + ([q] + d);
    assert name + ['='] + [q] + d == t;
    forall k | 0 <= k < |t| ensures s[a + k] == t[k] {
      assert s[a..][k] == t[k];
    }
  }

  lemma {:induction false} ClosedRead(s: string, a: nat, st: State, name: string, q: char, v: string, c: char)
    requires st.phase.InParam? && st.prev == a && a <= |s| && ClosedValue(s[a..], name, q, v, c)
    ensures ReadOn(s, a, st) == Err(AfterQuote)
  {
    var open := name + ['='] + [q] + Double(v, q);
    var r := s[a..];
    assert (open + [q, c])[..|open|] == open;
    assert open == r[..|open|];
    var read := ValueUpTo(s, a, st, name, q, v);
    var e := a + |open|;
    assert s[e] == r[|open|] == (open + [q, c])[|open|] == q;
    assert s[e + 1] == r[|open| + 1] == (open + [q, c])[|open| + 1] == c;
    OneStep(s, e, read, read.(phase := PastQuote));
  }

  /** Whatever fails, fails as described. */
  lemma {:induction false} FailsSo(s: string, i: nat)
    requires i <= |s| && ReadTo(s, i).Ok? && Step(s, i, ReadTo(s, i).value).Err?
    ensures Fails(s, Step(s, i, ReadTo(s, i).value).error)
  {
    var z, st := s + [','], ReadTo(s, i).value;
    var error := Step(s, i, st).error;
    var os, v := ReadsSo(z, s, i);
    if st.phase.InParam? {
      ParamWrong(s, i, st, os);
    } else {
      PastWrong(s, i, st, os, v);
    }
  }

  lemma {:induction false} ParamWrong(s: string, i: nat, st: State, os: seq<Opt>)
    requires i <= |s| && st.phase.InParam? && HasRead(s + [','], i, st, os, "") && Step(s, i, st).Err?
    ensures FailsAfter(s, os, Step(s, i, st).error)
  {
    var z, a := s + [','], st.prev;
    assert Commas(os) == z[..a] && |Commas(os)| == a;
    var r, n := s[a..], i - a;
    assert r[..n] == s[a..i] == z[a..i];
    assert n < |r| ==> r[n] == s[i];
    if n > 0 && r[0] == '-' && (CharAt(s, i) == ',' || CharAt(s, i) == '=') {
      assert DashedUpTo(r, n);
    } else if CharAt(s, i) != ',' && CharAt(s, i) != '=' {
      assert BadAt(r, n);
    }
  }

  lemma {:induction false} PastWrong(s: string, i: nat, st: State, os: seq<Opt>, v: string)
    requires i <= |s| && !st.phase.InParam? && HasRead(s + [','], i, st, os, v) && Step(s, i, st).Err?
    ensures FailsAfter(s, os, Step(s, i, st).error)
  {
    var z, q := s + [','], st.quote;
    var a := |Commas(os)|;
    var open := st.param + ['='] + [q] + Double(v, q);
    assert i < |s|;
    ClosedStands(z, i, st, os, v);
    var r := s[a..];
    assert open + [q, s[i]] == z[a..i + 1] == r[..i + 1 - a];
    assert ClosedValue(r, st.param, q, v, s[i]);
    assert Commas(os) <= z;
  }

  /** Where the parts of a quoted value stand. */
  lemma {:induction false} ClosedStands(z: string, i: nat, st: State, os: seq<Opt>, v: string)
    requires i < |z| && st.phase.PastQuote? && HasRead(z, i, st, os, v)
    ensures var open := st.param + ['='] + [st.quote] + Double(v, st.quote);
      && |Commas(os)| <= i && z[..|Commas(os)|] == Commas(os)
      && z[|Commas(os)|..i + 1] == open + [st.quote, z[i]]
  {
    var q, d := st.quote, Double(v, st.quote);
    HeadSplit(z, st.prev, Commas(os), st.param + ['=', q]);
    SliceMore(z, st.prev, i - 1);
    SliceMore(z, st.prev, i);
    TailSplit(z, |Commas(os)|, st.prev, i, st.param, q, d);
  }

  lemma {:induction false} HeadSplit(z: string, n: nat, a: string, b: string)
    requires n <= |z| && z[..n] == a + b
    ensures |a| <= n && z[..|a|] == a && z[|a|..n] == b
  {
    assert z[..n][..|a|] == a && z[..n][|a|..] == b;
  }

  lemma {:induction false} TailSplit(z: string, a: nat, n: nat, i: nat, name: string, q: char, d: string)
    requires a <= n < i < |z| && z[a..n] == name + ['=', q]
    requires z[n..i - 1] == d && z[i - 1] == q
    ensures z[a..i + 1] == name + ['='] + [q] + d + [q, z[i]]
  {
    assert z[a..i + 1] == z[a..n] + (z[n..i - 1] + [z[i - 1], z[i]]);
  }

  /** A quoted value that is not closed. */
  lemma {:induction false} QuoteLeftOpen(s: string, st: State, os: seq<Opt>, v: string)
    requires st.phase.InQuoted? && HasRead(s + [','], |s| + 1, st, os, v)
    ensures FailsAfter(s, os, UnterminatedQuote)
  {
    var q, d := st.quote, Double(v, st.quote);
    HeadSplit(s + [','], st.prev, Commas(os), st.param + ['=', q]);
    EndSplit(s, |Commas(os)|, st.prev, st.param, q, d);
    var w := CommaOff(v, q);
    Chopped(Double(w, q), d[..|d| - 1], ',');
    assert OpenValue(s[|Commas(os)|..], st.param, q, w);
  }

  lemma {:induction false} EndSplit(s: string, a: nat, n: nat, name: string, q: char, d: string)
    requires a <= n <= |s| + 1 && IsQuote(q)
    requires (s + [','])[a..n] == name + ['=', q] && (s + [','])[n..] == d
    ensures d != "" && d == d[..|d| - 1] + [','] && a <= |s| && s[a..] == name + ['='] + [q] + d[..|d| - 1]
  {
    var z := s + [','];
    assert z[n - 1] == z[a..n][n - a - 1] == q;
    assert d == s[n..] + [','];
    assert s[a..n] == z[a..n];
    assert s[a..] == s[a..n] + s[n..];
  }

  /** A doubled text that ends in another character than the quote. */
  lemma {:induction false} CommaOff(v: string, q: char) returns (w: string)
    requires IsQuote(q) && Double(v, q) != "" && Double(v, q)[|Double(v, q)| - 1] == ','
    ensures Double(w, q) + [','] == Double(v, q)
  {
    assert v != "";
    w := v[..|v| - 1];
    var c := v[|v| - 1];
    assert v == w + [c];
    DoubleMore(w, c, q);
  }

  /** The first step that fails. */
  lemma {:induction false} FirstFailure(s: string, i: nat) returns (j: nat)
    requires i <= |s| + 1 && ReadTo(s, i).Ok? && ReadOn(s, i, ReadTo(s, i).value).Err?
    ensures j <= |s| && ReadTo(s, j).Ok?
    ensures Step(s, j, ReadTo(s, j).value) == Err(ReadOn(s, i, ReadTo(s, i).value).error)
    decreases |s| + 1 - i
  {
    var st := ReadTo(s, i).value;
    if Step(s, i, st).Ok? {
      ReadToNext(s, i);
      OneStep(s, i, st, ReadTo(s, i + 1).value);
      j := FirstFailure(s, i + 1);
    } else {
      j := i;
    }
  }

  lemma {:induction false} ReadToNext(s: string, i: nat)
    requires i <= |s| && ReadTo(s, i).Ok?
    ensures ReadTo(s, i + 1) == Step(s, i, ReadTo(s, i).value)
  {
  }

  /** A text is refused with an error exactly when, without the space around it, it is not empty and
      what follows some options is wrong in that way. */
  lemma {:induction false} ParseErrIff(text: string, error: ParseError)
    ensures Parse(text) == Err(error) <==> TrimSpace(text) != "" && Fails(TrimSpace(text), error)
  {
    var s := TrimSpace(text);
    if s != "" {
      if Parse(text) == Err(error) {
        RefusedFails(s, error);
      }
      if Fails(s, error) {
        var os :| FailsAfter(s, os, error);
        var st := LeadRead(s, os);
        WrongRead(s, |Commas(os)|, st, error);
      }
    }
  }

  lemma {:induction false} RefusedFails(s: string, error: ParseError)
    requires s != ""
    requires var end := ReadOn(s, 0, START);
      if end.Err? then end.error == error else Conclude(s, end.value) == Err(error)
    ensures Fails(s, error)
  {
    if ReadOn(s, 0, START).Err? {
      var j := FirstFailure(s, 0);
      FailsSo(s, j);
    } else {
      EndStates(s, 0, START);
      AllRead(s, |s| + 1);
      ReadToOn(s, |s| + 1);
      var os, v := ReadsSo(s + [','], s, |s| + 1);
      QuoteLeftOpen(s, ReadTo(s, |s| + 1).value, os, v);
    }
  }
}
