/** The configuration wizard, whose states are strings (fs/backend_config.go). */
module ConfigWizard {
  import opened Wrappers
  import opened Text

  // --- States as strings ------------------------------------------------------------------

  const WIDE := '\U{FF0C}'  // the wide comma

  function Replace(s: string, x: char, y: char): (r: string)
    ensures |r| == |s| && forall i :: 0 <= i < |s| ==> r[i] == if s[i] == x then y else s[i]
  {
    if s == [] then [] else [if s[0] == x then y else s[0]] + Replace(s[1..], x, y)
  }

  function Join(values: seq<string>): (s: string)
  {
    if values == [] then []
    else if |values| == 1 then values[0]
    else values[0] + "," + Join(values[1..])
  }

  function Widened(values: seq<string>): (r: seq<string>)
    ensures |r| == |values| && forall i :: 0 <= i < |values| ==> r[i] == Replace(values[i], ',', WIDE)
  {
    seq(|values|, i requires 0 <= i < |values| => Replace(values[i], ',', WIDE))
  }

  /** Put values in front of a state. */
  function Pushed(state: string, values: seq<string>): (s: string)
  {
    Join(Widened(values) + if state != [] then [state] else [])
  }

  method StatePush(state: string, values: seq<string>) returns (s: string)
    ensures s == Pushed(state, values)
  {
    var vs := values;
    for i := 0 to |vs|
      invariant |vs| == |values|
      invariant forall j :: 0 <= j < |vs| ==> vs[j] == if j < i then Replace(values[j], ',', WIDE) else values[j]
    {
      vs := vs[i := Replace(vs[i], ',', WIDE)];
    }
    assert vs == Widened(values);
    if state != [] {
      vs := vs + [state];
    } else {
      assert vs + [] == vs;
    }
    s := Join(vs);
  }

  /** Take a value off the front of a state: the rest of the state, and the value. */
  function StatePop(state: string): (r: (string, string))
  {
    var comma := IndexOf(state, ',');
    if comma.None? then ([], state)
    else (state[comma.value + 1..], Replace(state[..comma.value], WIDE, ','))
  }

  lemma {:induction false} CommaAt(a: string, b: string)
    requires ',' !in a
    ensures IndexOf(a + "," + b, ',') == Some(|a|)
  {
    var s := a + "," + b;
    assert s[|a|] == ',';
    assert ',' in s;
    assert forall i :: 0 <= i < |a| ==> s[i] == a[i] != ',';
  }

  /** Popping a state that was pushed in front of more gives back the rest, and gives back the
      value exactly when it has no wide comma. */
  lemma {:induction false} PopPushed(state: string, values: seq<string>)
    requires |values| > 1 || (|values| == 1 && state != [])
    ensures StatePop(Pushed(state, values)).0 == Pushed(state, values[1..])
    ensures StatePop(Pushed(state, values)).1 == values[0] <==> WIDE !in values[0]
  {
    var v := Replace(values[0], ',', WIDE);
    var tail := if state != [] then [state] else [];
    assert (Widened(values) + tail)[1..] == Widened(values[1..]) + tail;
    assert Pushed(state, values) == v + "," + Pushed(state, values[1..]);
    assert ',' !in v;
    CommaAt(v, Pushed(state, values[1..]));
    var s := v + "," + Pushed(state, values[1..]);
    assert s[..|v|] == v && s[|v| + 1..] == Pushed(state, values[1..]);
    Restore(values[0]);
  }

  lemma {:induction false} Restore(v: string)
    ensures Replace(Replace(v, ',', WIDE), WIDE, ',') == v <==> WIDE !in v
  {
    var r := Replace(Replace(v, ',', WIDE), WIDE, ',');
    if WIDE in v {
      var i :| 0 <= i < |v| && v[i] == WIDE;
      assert r[i] == ',';
    } else {
      forall i | 0 <= i < |v| ensures r[i] == v[i] {
        assert v[i] in v;
      }
    }
  }

  /** The last value comes back exactly when it has no comma, as nothing restores it. */
  lemma {:induction false} PopLast(value: string)
    ensures StatePop(Pushed([], [value])).0 == []
    ensures StatePop(Pushed([], [value])).1 == value <==> ',' !in value
  {
    var r := Replace(value, ',', WIDE);
    assert Widened([value]) + [] == [r];
    assert ',' !in r;
    if ',' !in value {
      forall i | 0 <= i < |value| ensures r[i] == value[i] {
        assert value[i] in value;
      }
    } else {
      var i :| 0 <= i < |value| && value[i] == ',';
      assert r[i] == WIDE;
    }
  }

  // --- One step ---------------------------------------------------------------------------

  /** The words the wizard uses: for what to do next, for the two truth values, and for the
      option that names the provider. */
  datatype Words = Words(
    all: string, set_: string, advanced: string, post: string, yes: string, no: string, provider: string)
  {
    function Flag(b: bool): (s: string)
    {
      if b then yes else no
    }
  }

  const WORDS := Words("*all", "*all-set", "*all-advanced", "*postconfig", "true", "false", "provider")

  predicate PlainWord(s: string)
  {
    ',' !in s && WIDE !in s
  }

  /** All the wizard needs of its words. */
  predicate Usable(w: Words)
  {
    && PlainWord(w.all) && PlainWord(w.set_) && PlainWord(w.advanced) && PlainWord(w.yes) && PlainWord(w.no)
    && w.all != w.set_ && w.all != w.advanced && w.set_ != w.advanced && w.yes != w.no && w.yes != []
    && w.post != w.all && w.post != w.advanced && PlainWord(w.post)
  }

  lemma {:induction false} WordsUsable()
    ensures Usable(WORDS)
  {
    assert |WORDS.all| == 4 && |WORDS.set_| == 8 && |WORDS.advanced| == 13 && |WORDS.post| == 11;
  }

  datatype Opt = Opt(name: string, hidden: bool, advanced: bool, provider: string, default: string)

  type Config = map<string, string>

  function Get(m: Config, key: string): (v: string)
  {
    if key in m then m[key] else []
  }

  /** Won't add a blank value that is blank already. */
  function Set(m: Config, key: string, value: string): (r: Config)
  {
    if Get(m, key) != value then m[key := value] else m
  }

  function Split(s: string): (parts: seq<string>)
    decreases |s|
  {
    var comma := IndexOf(s, ',');
    if comma.None? then [s] else [s[..comma.value]] + Split(s[comma.value + 1..])
  }

  /** A list of providers, or of providers excluded; blanks match all. */
  predicate MatchProvider(config: string, provider: string)
  {
    if config == [] || provider == [] then true
    else if config[0] == '!' then provider !in Split(config[1..])
    else provider in Split(config)
  }

  /** Splitting takes apart what commas join, and nothing else. */
  lemma {:induction false} SplitJoin(s: string)
    ensures Join(Split(s)) == s && Split(s) != [] && forall p :: p in Split(s) ==> ',' !in p
    decreases |s|
  {
    var comma := IndexOf(s, ',');
    if comma.Some? {
      var k := comma.value;
      SplitJoin(s[k + 1..]);
      assert Split(s) == [s[..k]] + Split(s[k + 1..]);
      assert s == s[..k] + "," + s[k + 1..];
    }
  }

  lemma {:induction false} JoinSplit(ps: seq<string>)
    requires ps != [] && forall p :: p in ps ==> ',' !in p
    ensures Split(Join(ps)) == ps
  {
    assert ',' !in ps[0];
    if |ps| == 1 {
      assert ps == [ps[0]];
    } else {
      JoinSplit(ps[1..]);
      CommaAt(ps[0], Join(ps[1..]));
      var s := ps[0] + "," + Join(ps[1..]);
      assert s[..|ps[0]|] == ps[0] && s[|ps[0]| + 1..] == Join(ps[1..]);
    }
  }

  /** A list matches its members, an excluded list all others, and a blank matches all. */
  lemma {:induction false} MatchProviderIff(ps: seq<string>, provider: string)
    requires ps != [] && forall p :: p in ps ==> ',' !in p
    ensures provider == [] || ps == [[]] ==> MatchProvider(Join(ps), provider)
    ensures provider != [] && ps != [[]] && !(['!'] <= ps[0]) ==>
      (MatchProvider(Join(ps), provider) <==> provider in ps)
    ensures MatchProvider(['!'] + Join(ps), provider) <==> provider == [] || provider !in ps
  {
    JoinSplit(ps);
    assert (['!'] + Join(ps))[1..] == Join(ps);
    if |ps| == 1 {
      assert ps == [ps[0]];
    } else {
      assert Join(ps) == ps[0] + "," + Join(ps[1..]);
      assert Join(ps)[0] == if ps[0] == [] then ',' else ps[0][0];
    }
  }

  datatype Question = AboutOption(i: nat) | AboutAdvanced

  /** The next state with a result for it, or with a question to ask first. */
  datatype Out = Out(state: string, result: string, question: Option<Question>)

  datatype WizardError = BadNumber | OutOfRange | BadState | NoName

  function NewState(w: Words, action: string, i: nat, advanced: bool): (s: string)
  {
    Pushed([], [action, Itoa(i), w.Flag(advanced)])
  }

  predicate Wanted(w: Words, o: Opt, advanced: bool, m: Config)
  {
    !o.hidden && o.advanced == advanced && MatchProvider(o.provider, Get(m, w.provider))
  }

  predicate HasAdvanced(opts: seq<Opt>)
  {
    exists o :: o in opts && o.advanced
  }

  function Goto(state: string): (out: Out)
  {
    Out(state, [], None)
  }

  /** A state taken apart: what to do, the number of the option, and whether it is advanced. */
  datatype Parts = Parts(action: string, number: string, flag: string)

  function TakeApart(state: string): (p: Parts)
  {
    var a := StatePop(state);
    var n := StatePop(a.0);
    Parts(a.1, n.1, StatePop(n.0).1)
  }

  /** configAll: the step from `state` with the reply `result`; the configuration may change. */
  function ConfigAll(
    w: Words, opts: seq<Opt>, m: Config, state: string, result: string): (r: Result<(Out, Config), WizardError>)
  {
    if opts == [] then Ok((Goto(w.post), m))
    else
      var p := TakeApart(state);
      var i := if p.number == [] then Some(0) else Atoi(p.number);
      if i.None? then Err(BadNumber)
      else if i.value == |opts| then Ok((AfterOptions(w, opts), m))
      else if i.value < 0 || i.value > |opts| then Err(OutOfRange)
      else ConfigOne(w, opts, m, p.action, i.value, p.flag == w.yes, result)
  }

  function AfterOptions(w: Words, opts: seq<Opt>): (out: Out)
  {
    if HasAdvanced(opts) then Out(w.advanced, [], Some(AboutAdvanced)) else Goto(w.post)
  }

  function ConfigOne(w: Words, opts: seq<Opt>, m: Config, action: string, i: nat, advanced: bool, result: string)
    : (r: Result<(Out, Config), WizardError>)
    requires i < |opts|
  {
    if action == w.all then
      if !Wanted(w, opts[i], advanced, m) then Ok((Goto(NewState(w, w.all, i + 1, advanced)), m))
      else Ok((Out(NewState(w, w.set_, i, advanced), [], Some(AboutOption(i))), m))
    else if action == w.set_ then
      Ok((Goto(NewState(w, w.all, i + 1, advanced)), Set(m, opts[i].name, result)))
    else if action == w.advanced then
      Ok((Goto(if result == w.yes then NewState(w, w.all, 0, true) else w.post), m))
    else Err(BadState)
  }

  /** Three values without commas come back when they are taken off one by one. */
  lemma {:induction false} ThreePopped(a: string, n: string, f: string)
    requires WIDE !in a && WIDE !in n && ',' !in f
    ensures TakeApart(Pushed([], [a, n, f])) == Parts(a, n, f)
  {
    PopPushed([], [a, n, f]);
    assert [a, n, f][1..] == [n, f];
    PopPushed([], [n, f]);
    assert [n, f][1..] == [f];
    PopLast(f);
  }

  /** A word alone is a state that says nothing else. */
  lemma {:induction false} WordPopped(a: string)
    requires ',' !in a
    ensures TakeApart(a) == Parts(a, [], [])
  {
  }

  /** The states the wizard makes are read back as they were made. */
  lemma {:induction false} StateRead(w: Words, action: string, i: nat, advanced: bool)
    requires Usable(w) && PlainWord(action) && i <= MAX
    ensures var p := TakeApart(NewState(w, action, i, advanced));
      p.action == action && p.number != [] && Atoi(p.number) == Some(i) && (p.flag == w.yes <==> advanced)
  {
    ThreePopped(action, Itoa(i), w.Flag(advanced));
    AtoiItoa(i);
  }

  /** A state is written as its action, the number of the option, and the flag. */
  lemma {:induction false} StateWritten(w: Words, action: string, i: nat, advanced: bool)
    requires Usable(w) && PlainWord(action)
    ensures NewState(w, action, i, advanced) == action + "," + Itoa(i) + "," + w.Flag(advanced)
  {
    var number, flag := Itoa(i), w.Flag(advanced);
    NothingWidened(action);
    NothingWidened(number);
    NothingWidened(flag);
    assert Widened([action, number, flag]) + [] == [action, number, flag];
    assert [action, number, flag][1..] == [number, flag] && [number, flag][1..] == [flag];
    assert Join([number, flag]) == number + "," + flag;
  }

  lemma {:induction false} NothingWidened(v: string)
    requires ',' !in v
    ensures Replace(v, ',', WIDE) == v
  {
    forall i | 0 <= i < |v| ensures Replace(v, ',', WIDE)[i] == v[i] {
      assert v[i] in v;
    }
  }

  lemma {:induction false} ConfigAllAt(
    w: Words, opts: seq<Opt>, m: Config, action: string, i: nat, advanced: bool, result: string)
    requires Usable(w) && PlainWord(action) && i < |opts| <= MAX
    ensures ConfigAll(w, opts, m, NewState(w, action, i, advanced), result) ==
      ConfigOne(w, opts, m, action, i, advanced, result)
  {
    StateRead(w, action, i, advanced);
  }

  /** A word alone is read as being about option 0, and not advanced. */
  lemma {:induction false} ConfigAllFirst(w: Words, opts: seq<Opt>, m: Config, action: string, result: string)
    requires Usable(w) && PlainWord(action) && opts != []
    ensures ConfigAll(w, opts, m, action, result) == ConfigOne(w, opts, m, action, 0, false, result)
  {
    WordPopped(action);
  }

  lemma {:induction false} ConfigAllEnd(w: Words, opts: seq<Opt>, m: Config, advanced: bool, result: string)
    requires Usable(w) && 0 < |opts| <= MAX
    ensures ConfigAll(w, opts, m, NewState(w, w.all, |opts|, advanced), result) == Ok((AfterOptions(w, opts), m))
  {
    StateRead(w, w.all, |opts|, advanced);
  }

  // --- A pass -----------------------------------------------------------------------------

  /** The configuration when the options before `i` have been gone through. */
  function ConfigAfter(w: Words, opts: seq<Opt>, m: Config, advanced: bool, answers: seq<string>, i: nat): (r: Config)
    requires i <= |opts| == |answers|
  {
    if i == 0 then m
    else
      var before := ConfigAfter(w, opts, m, advanced, answers, i - 1);
      if Wanted(w, opts[i - 1], advanced, before) then Set(before, opts[i - 1].name, answers[i - 1]) else before
  }

  /** Option `i` is one to ask about: visible, of this kind, and for the provider chosen so far. */
  predicate IsAsked(w: Words, opts: seq<Opt>, m: Config, advanced: bool, answers: seq<string>, i: nat)
    requires i < |opts| == |answers|
  {
    Wanted(w, opts[i], advanced, ConfigAfter(w, opts, m, advanced, answers, i))
  }

  /** The state is for option `i`: made for it, or the word the wizard begins with. */
  predicate StartsAt(w: Words, state: string, i: nat, advanced: bool)
  {
    state == NewState(w, w.all, i, advanced) || (state == w.all && i == 0 && !advanced)
  }

  /** Go through option `i`: skip it, or ask about it and take the answer. */
  method PassOne(w: Words, opts: seq<Opt>, m: Config, state: string, ghost i: nat, ghost advanced: bool, answer: string)
    returns (asked: Option<nat>, config: Config, next: string)
    requires Usable(w) && i < |opts| <= MAX && StartsAt(w, state, i, advanced)
    ensures next == NewState(w, w.all, i + 1, advanced)
    ensures asked == if Wanted(w, opts[i], advanced, m) then Some(i) else None
    ensures config == if Wanted(w, opts[i], advanced, m) then Set(m, opts[i].name, answer) else m
  {
    if state == w.all && i == 0 && !advanced {
      ConfigAllFirst(w, opts, m, w.all, []);
    } else {
      ConfigAllAt(w, opts, m, w.all, i, advanced, []);
    }
    ConfigAllAt(w, opts, m, w.set_, i, advanced, answer);
    var r := ConfigAll(w, opts, m, state, []);
    asked := None;
    if r.value.0.question.Some? {
      asked := Some(r.value.0.question.value.i);
      r := ConfigAll(w, opts, m, r.value.0.state, answer);
    }
    config, next := r.value.1, r.value.0.state;
  }

  /** `asked` lists the options to ask about among the first `n`, in order and once each. */
  ghost predicate AskedUpTo(
    w: Words, opts: seq<Opt>, m: Config, advanced: bool, answers: seq<string>, n: nat, asked: seq<nat>)
    requires n <= |opts| == |answers|
  {
    && (forall k :: 0 <= k < |asked| ==> asked[k] < n && IsAsked(w, opts, m, advanced, answers, asked[k]))
    && (forall i :: 0 <= i < n && IsAsked(w, opts, m, advanced, answers, i) ==> i in asked)
    && (forall j, k :: 0 <= j < k < |asked| ==> asked[j] < asked[k])
  }

  lemma {:induction false} AskedOneMore(
    w: Words, opts: seq<Opt>, m: Config, advanced: bool, answers: seq<string>, n: nat, asked: seq<nat>)
    requires n < |opts| == |answers| && AskedUpTo(w, opts, m, advanced, answers, n, asked)
    ensures if IsAsked(w, opts, m, advanced, answers, n)
      then AskedUpTo(w, opts, m, advanced, answers, n + 1, asked + [n])
      else AskedUpTo(w, opts, m, advanced, answers, n + 1, asked)
  {
    assert n in asked + [n];
    assert forall i :: i in asked ==> i in asked + [n];
  }

  /** A pass over the options from the state of option 0 on, `answers[i]` being the reply to the
      question about option `i`.  It asks about exactly the options to ask about, in their order
      and once each, in one step an option and one more for every answer. */
  method Pass(w: Words, opts: seq<Opt>, m: Config, first: string, ghost advanced: bool, answers: seq<string>)
    returns (asked: seq<nat>, config: Config, steps: nat, last: Out)
    requires Usable(w) && 0 < |opts| == |answers| <= MAX && StartsAt(w, first, 0, advanced)
    ensures AskedUpTo(w, opts, m, advanced, answers, |opts|, asked)
    ensures config == ConfigAfter(w, opts, m, advanced, answers, |opts|)
    ensures steps == |opts| + |asked| + 1
    ensures last == AfterOptions(w, opts)
  {
    asked, config, steps := [], m, 0;
    var state := first;
    for i := 0 to |opts|
      invariant StartsAt(w, state, i, advanced)
      invariant config == ConfigAfter(w, opts, m, advanced, answers, i)
      invariant AskedUpTo(w, opts, m, advanced, answers, i, asked)
      invariant steps == i + |asked|
    {
      AskedOneMore(w, opts, m, advanced, answers, i, asked);
      var question;
      question, config, state := PassOne(w, opts, config, state, i, advanced, answers[i]);
      steps := steps + 1;
      if question.Some? {
        asked := asked + [question.value];
        steps := steps + 1;
      }
    }
    ConfigAllEnd(w, opts, config, advanced, []);
    last, steps := ConfigAll(w, opts, config, state, []).value.0, steps + 1;
  }

  /** What is asked in a pass: the options that are visible and of its kind, and that name no provider,
      or the one chosen so far, or exclude others. */
  lemma {:induction false} AskedIff(
    w: Words, opts: seq<Opt>, m: Config, advanced: bool, answers: seq<string>, asked: seq<nat>, i: nat)
    requires i < |opts| == |answers| && AskedUpTo(w, opts, m, advanced, answers, |opts|, asked)
    ensures var chosen := Get(ConfigAfter(w, opts, m, advanced, answers, i), w.provider);
      i in asked <==>
        !opts[i].hidden && opts[i].advanced == advanced && MatchProvider(opts[i].provider, chosen)
  {
    if i in asked {
      var k :| 0 <= k < |asked| && asked[k] == i;
    }
  }

  /** A key that no question was about keeps what it had. */
  lemma {:induction false} OthersKept(
    w: Words, opts: seq<Opt>, m: Config, advanced: bool, answers: seq<string>, key: string, n: nat)
    requires n <= |opts| == |answers|
    requires forall j :: 0 <= j < n && IsAsked(w, opts, m, advanced, answers, j) ==> opts[j].name != key
    ensures var after := ConfigAfter(w, opts, m, advanced, answers, n);
      (key in after <==> key in m) && Get(after, key) == Get(m, key)
  {
    if n > 0 {
      OthersKept(w, opts, m, advanced, answers, key, n - 1);
      assert IsAsked(w, opts, m, advanced, answers, n - 1) ==> opts[n - 1].name != key;
    }
  }

  /** An answer is in the configuration in the end, unless another option has the same name; and a
      blank one is not added. */
  lemma {:induction false} AnswerKept(
    w: Words, opts: seq<Opt>, m: Config, advanced: bool, answers: seq<string>, i: nat, n: nat)
    requires i < n <= |opts| == |answers| && IsAsked(w, opts, m, advanced, answers, i)
    requires forall j :: 0 <= j < n && j != i && IsAsked(w, opts, m, advanced, answers, j) ==>
      opts[j].name != opts[i].name
    ensures var after := ConfigAfter(w, opts, m, advanced, answers, n);
      Get(after, opts[i].name) == answers[i] && (opts[i].name in after <==> opts[i].name in m || answers[i] != [])
  {
    if n == i + 1 {
      OthersKept(w, opts, m, advanced, answers, opts[i].name, i);
    } else {
      AnswerKept(w, opts, m, advanced, answers, i, n - 1);
      assert IsAsked(w, opts, m, advanced, answers, n - 1) ==> opts[n - 1].name != opts[i].name;
    }
  }

  // --- The whole wizard -------------------------------------------------------------------

  /** A reply to the question about advanced options, and answers to those if it is yes. */
  datatype Round = Round(reply: string, answers: seq<string>)

  /** There is an answer to every question there may be. */
  predicate AllAnswered(n: nat, answers: seq<string>, rounds: seq<Round>)
  {
    |answers| == n && forall k :: 0 <= k < |rounds| ==> |rounds[k].answers| == n
  }

  /** The configuration after the basic options and `k` passes over the advanced ones. */
  function ConfigAfterRounds(
    w: Words, opts: seq<Opt>, m: Config, answers: seq<string>, rounds: seq<Round>, k: nat): (r: Config)
    requires k <= |rounds| && AllAnswered(|opts|, answers, rounds)
  {
    if k == 0 then ConfigAfter(w, opts, m, false, answers, |opts|)
    else
      var before := ConfigAfterRounds(w, opts, m, answers, rounds, k - 1);
      ConfigAfter(w, opts, before, true, rounds[k - 1].answers, |opts|)
  }

  /** Round `k` was a yes, and its pass asked about exactly the advanced options to ask about, with the
      configuration the passes before it left. */
  ghost predicate RoundAsked(
    w: Words, opts: seq<Opt>, m: Config, answers: seq<string>, rounds: seq<Round>, k: nat, asked: seq<nat>)
    requires k < |rounds| && AllAnswered(|opts|, answers, rounds)
  {
    && rounds[k].reply == w.yes
    && AskedUpTo(
      w, opts, ConfigAfterRounds(w, opts, m, answers, rounds, k), true, rounds[k].answers, |opts|, asked)
  }

  /** What the passes asked: the basic options, and the advanced ones in every further pass. */
  ghost predicate Went(
    w: Words, opts: seq<Opt>, m: Config, answers: seq<string>, rounds: seq<Round>, passes: seq<seq<nat>>)
    requires AllAnswered(|opts|, answers, rounds)
  {
    && 1 <= |passes| <= |rounds| + 1
    && AskedUpTo(w, opts, m, false, answers, |opts|, passes[0])
    && forall k :: 1 <= k < |passes| ==> RoundAsked(w, opts, m, answers, rounds, k - 1, passes[k])
  }

  lemma {:induction false} WentOnceMore(
    w: Words, opts: seq<Opt>, m: Config, answers: seq<string>, rounds: seq<Round>, passes: seq<seq<nat>>,
    asked: seq<nat>)
    requires AllAnswered(|opts|, answers, rounds) && Went(w, opts, m, answers, rounds, passes)
    requires |passes| <= |rounds| && RoundAsked(w, opts, m, answers, rounds, |passes| - 1, asked)
    ensures Went(w, opts, m, answers, rounds, passes + [asked])
  {
    var more := passes + [asked];
    forall k | 1 <= k < |more| ensures RoundAsked(w, opts, m, answers, rounds, k - 1, more[k]) {
      assert more[k] == if k < |passes| then passes[k] else asked;
    }
  }

  /** The whole wizard from its first state on.  It goes over the basic options, and asks about the
      advanced ones if there are any.  For as long as the reply is yes it goes over the advanced options
      with the configuration left so far, and asks again; otherwise it comes to post-config.
      `passes` lists the options asked about in each pass; it stops early when the replies run out. */
  method Wizard(w: Words, opts: seq<Opt>, m: Config, answers: seq<string>, rounds: seq<Round>)
    returns (passes: seq<seq<nat>>, config: Config, state: string)
    requires Usable(w) && |opts| <= MAX && AllAnswered(|opts|, answers, rounds)
    ensures Went(w, opts, m, answers, rounds, passes)
    ensures config == ConfigAfterRounds(w, opts, m, answers, rounds, |passes| - 1)
    ensures !HasAdvanced(opts) ==> |passes| == 1 && state == w.post
    ensures HasAdvanced(opts) && |passes| <= |rounds| ==> rounds[|passes| - 1].reply != w.yes && state == w.post
    ensures HasAdvanced(opts) && |passes| == |rounds| + 1 ==> state == w.advanced
  {
    if opts == [] {
      var out := ConfigAll(w, opts, m, w.all, []);
      return [[]], m, out.value.0.state;
    }
    var asked, steps, last := [], 0, Goto([]);
    asked, config, steps, last := Pass(w, opts, m, w.all, false, answers);
    passes, state := [asked], last.state;
    var k := 0;
    while last.question.Some? && k < |rounds|
      invariant k <= |rounds| && |passes| == k + 1 && Went(w, opts, m, answers, rounds, passes)
      invariant last == AfterOptions(w, opts) && state == last.state
      invariant config == ConfigAfterRounds(w, opts, m, answers, rounds, k)
      invariant k > 0 ==> HasAdvanced(opts)
    {
      state := ReplyAdvanced(w, opts, config, state, rounds[k].reply);
      if state == w.post {
        return;
      }
      asked, config, steps, last := Pass(w, opts, config, state, true, rounds[k].answers);
      assert config == ConfigAfterRounds(w, opts, m, answers, rounds, k + 1);
      WentOnceMore(w, opts, m, answers, rounds, passes, asked);
      passes, state, k := passes + [asked], last.state, k + 1;
    }
  }

  /** A yes leads to the first advanced option, anything else to post-config. */
  method ReplyAdvanced(w: Words, opts: seq<Opt>, m: Config, state: string, reply: string) returns (next: string)
    requires Usable(w) && opts != [] && state == w.advanced
    ensures if reply == w.yes then next == NewState(w, w.all, 0, true) && next != w.post else next == w.post
  {
    ConfigAllFirst(w, opts, m, w.advanced, reply);
    NotPost(w, w.all, 0, true);
    next := ConfigAll(w, opts, m, state, reply).value.0.state;
  }

  // --- Without questions ------------------------------------------------------------------

  /** backendConfigStep with AutoConfirm set and no choices made: questions answer themselves. */
  function AutoStep(
    w: Words, opts: seq<Opt>, m: Config, state: string, result: string): (r: Result<(Out, Config), WizardError>)
  {
    AutoReply(w, opts, ConfigAll(w, opts, m, state, result))
  }

  function AutoReply(
    w: Words, opts: seq<Opt>, r: Result<(Out, Config), WizardError>): (a: Result<(Out, Config), WizardError>)
  {
    if r.Err? || r.value.0.question.None? then r
    else if NoNameIn(opts, r.value.0.question.value) then Err(NoName)
    else Ok((Out(r.value.0.state, DefaultReply(w, opts, r.value.0.question.value), None), r.value.1))
  }

  predicate NoNameIn(opts: seq<Opt>, q: Question)
  {
    q.AboutOption? && q.i < |opts| && opts[q.i].name == []
  }

  function DefaultReply(w: Words, opts: seq<Opt>, q: Question): (reply: string)
  {
    match q
    case AboutOption(i) => if i < |opts| then opts[i].default else []
    case AboutAdvanced => w.no
  }

  function Defaults(opts: seq<Opt>): (ds: seq<string>)
    ensures |ds| == |opts| && forall i :: 0 <= i < |opts| ==> ds[i] == opts[i].default
  {
    seq(|opts|, i requires 0 <= i < |opts| => opts[i].default)
  }

  /** Where the loop stands: about to judge option `i`, with the answer to its question, or with
      the answer to the question about advanced options, or done. */
  datatype Place = Judging(i: nat) | Answered(i: nat) | AnsweredAdvanced | Over

  ghost predicate Stands(w: Words, opts: seq<Opt>, m: Config, config: Config, state: string, result: string, at: Place)
  {
    match at
    case Judging(i) =>
      && i <= |opts| && config == ConfigAfter(w, opts, m, false, Defaults(opts), i)
      && (state == NewState(w, w.all, i, false) || (i == 0 && state == w.all))
    case Answered(i) =>
      && i < |opts| && config == ConfigAfter(w, opts, m, false, Defaults(opts), i)
      && state == NewState(w, w.set_, i, false) && result == opts[i].default && Wanted(w, opts[i], false, config)
    case AnsweredAdvanced =>
      && opts != [] && config == ConfigAfter(w, opts, m, false, Defaults(opts), |opts|)
      && state == w.advanced && result == w.no
    case Over =>
      state == w.post && config == ConfigAfter(w, opts, m, false, Defaults(opts), |opts|)
  }

  function NextPlace(w: Words, opts: seq<Opt>, config: Config, at: Place): (next: Place)
  {
    match at
    case Judging(i) =>
      if i < |opts| then (if Wanted(w, opts[i], false, config) then Answered(i) else Judging(i + 1))
      else if opts != [] && HasAdvanced(opts) then AnsweredAdvanced else Over
    case Answered(i) => Judging(i + 1)
    case AnsweredAdvanced => Over
    case Over => Over
  }

  /** The steps that are left at most. */
  function StepsLeft(n: nat, at: Place): (k: int)
  {
    match at
    case Judging(i) => 2 * (n - i) + 2
    case Answered(i) => 2 * (n - i) + 1
    case AnsweredAdvanced => 1
    case Over => 0
  }

  /** The question to ask next is about an option without a name. */
  predicate Nameless(w: Words, opts: seq<Opt>, config: Config, at: Place)
  {
    at.Judging? && at.i < |opts| && Wanted(w, opts[at.i], false, config) && opts[at.i].name == []
  }

  /** The options that are dealt with, or being so. */
  function Begun(n: nat, at: Place): (k: nat)
  {
    match at
    case Judging(i) => i
    case Answered(i) => i + 1
    case _ => n
  }

  /** Every option asked about among the first `n` has a name. */
  ghost predicate NamesGiven(w: Words, opts: seq<Opt>, m: Config, n: nat)
    requires n <= |opts|
    decreases n
  {
    n > 0 ==>
      && NamesGiven(w, opts, m, n - 1)
      && (IsAsked(w, opts, m, false, Defaults(opts), n - 1) ==> opts[n - 1].name != [])
  }

  /** `r` leads to the place `next`. */
  ghost predicate LeadsTo(w: Words, opts: seq<Opt>, m: Config, r: Result<(Out, Config), WizardError>, next: Place)
  {
    r.Ok? && Stands(w, opts, m, r.value.1, r.value.0.state, r.value.0.result, next)
  }

  lemma {:induction false} Judged(w: Words, opts: seq<Opt>, m: Config, config: Config, result: string, i: nat)
    requires Usable(w) && i < |opts| && config == ConfigAfter(w, opts, m, false, Defaults(opts), i)
    ensures var r := AutoReply(w, opts, ConfigOne(w, opts, config, w.all, i, false, result));
      if Nameless(w, opts, config, Judging(i)) then r == Err(NoName)
      else LeadsTo(w, opts, m, r, NextPlace(w, opts, config, Judging(i)))
  {
  }

  lemma {:induction false} WasAnswered(w: Words, opts: seq<Opt>, m: Config, config: Config, i: nat)
    requires Usable(w) && i < |opts| && config == ConfigAfter(w, opts, m, false, Defaults(opts), i)
    requires Wanted(w, opts[i], false, config)
    ensures LeadsTo(w, opts, m, AutoReply(w, opts, ConfigOne(w, opts, config, w.set_, i, false, opts[i].default)),
      Judging(i + 1))
  {
  }

  lemma {:induction false} AllJudged(w: Words, opts: seq<Opt>, m: Config, config: Config)
    requires Usable(w) && opts != [] && config == ConfigAfter(w, opts, m, false, Defaults(opts), |opts|)
    ensures LeadsTo(w, opts, m, AutoReply(w, opts, Ok((AfterOptions(w, opts), config))),
      NextPlace(w, opts, config, Judging(|opts|)))
    ensures LeadsTo(w, opts, m, AutoReply(w, opts, ConfigOne(w, opts, config, w.advanced, 0, false, w.no)), Over)
  {
  }

  lemma {:induction false} AutoStepLeads(
    w: Words, opts: seq<Opt>, m: Config, config: Config, state: string, result: string, at: Place)
    requires Usable(w) && |opts| <= MAX && Stands(w, opts, m, config, state, result, at) && !at.Over?
    ensures var r := AutoStep(w, opts, config, state, result);
      if Nameless(w, opts, config, at) then r == Err(NoName) else LeadsTo(w, opts, m, r, NextPlace(w, opts, config, at))
  {
    if opts == [] {
      assert at == Judging(0);
    } else if at.AnsweredAdvanced? {
      ConfigAllFirst(w, opts, config, w.advanced, result);
      AllJudged(w, opts, m, config);
    } else if at.Answered? {
      ConfigAllAt(w, opts, config, w.set_, at.i, false, result);
      WasAnswered(w, opts, m, config, at.i);
    } else if at.i == |opts| {
      ConfigAllEnd(w, opts, config, false, result);
      AllJudged(w, opts, m, config);
    } else {
      Judged(w, opts, m, config, result, at.i);
      if state == w.all && at.i == 0 {
        ConfigAllFirst(w, opts, config, w.all, result);
      } else {
        ConfigAllAt(w, opts, config, w.all, at.i, false, result);
      }
    }
  }

  /** Only the last state is the word for post-config. */
  lemma {:induction false} NotPost(w: Words, action: string, i: nat, advanced: bool)
    requires Usable(w)
    ensures NewState(w, action, i, advanced) != w.post
  {
    var values := [action, Itoa(i), w.Flag(advanced)];
    var ws := Widened(values) + [];
    assert |ws| == 3;
    assert Join(ws) == ws[0] + "," + Join(ws[1..]);
    assert (ws[0] + "," + Join(ws[1..]))[|ws[0]|] == ',';
  }

  /** The loop of BackendConfig from the first state on: unless an option to ask about has no name,
      it comes to post-config, having set the defaults of all options to ask about, in at most two
      steps an option and two more. */
  method AutoConfig(w: Words, opts: seq<Opt>, m: Config) returns (ok: bool, config: Config, steps: nat)
    requires Usable(w) && |opts| <= MAX
    ensures ok <==> NamesGiven(w, opts, m, |opts|)
    ensures ok ==> config == ConfigAfter(w, opts, m, false, Defaults(opts), |opts|)
    ensures steps <= 2 * |opts| + 2
  {
    ok, config, steps := true, m, 0;
    var state, result := w.all, [];
    ghost var at := Judging(0);
    while state != w.post
      invariant Stands(w, opts, m, config, state, result, at)
      invariant Begun(|opts|, at) <= |opts| && NamesGiven(w, opts, m, Begun(|opts|, at))
      invariant steps + StepsLeft(|opts|, at) <= 2 * |opts| + 2
      decreases StepsLeft(|opts|, at)
    {
      AutoStepLeads(w, opts, m, config, state, result, at);
      NamesOneMore(w, opts, m, config, state, result, at);
      NextIsCloser(w, opts, m, config, state, result, at);
      var r := AutoStep(w, opts, config, state, result);
      steps := steps + 1;
      if r.Err? {
        return false, config, steps;
      }
      at := NextPlace(w, opts, config, at);
      config := r.value.1;
      state, result := r.value.0.state, r.value.0.result;
    }
    OnlyOver(w, opts, m, config, state, result, at);
  }

  /** The state is the word for post-config only when the loop is over. */
  lemma {:induction false} OnlyOver(
    w: Words, opts: seq<Opt>, m: Config, config: Config, state: string, result: string, at: Place)
    requires Usable(w) && Stands(w, opts, m, config, state, result, at) && state == w.post
    ensures at.Over?
  {
    if at.Judging? {
      NotPost(w, w.all, at.i, false);
    } else if at.Answered? {
      NotPost(w, w.set_, at.i, false);
    }
  }

  lemma {:induction false} NextIsCloser(
    w: Words, opts: seq<Opt>, m: Config, config: Config, state: string, result: string, at: Place)
    requires Stands(w, opts, m, config, state, result, at)
    ensures !at.Over? ==> 0 <= StepsLeft(|opts|, NextPlace(w, opts, config, at)) < StepsLeft(|opts|, at)
  {
  }

  lemma {:induction false} NamesFewer(w: Words, opts: seq<Opt>, m: Config, n: nat, k: nat)
    requires n <= k <= |opts| && NamesGiven(w, opts, m, k)
    ensures NamesGiven(w, opts, m, n)
    decreases k
  {
    if n < k {
      NamesFewer(w, opts, m, n, k - 1);
    }
  }

  /** What it means: no option asked about is without a name. */
  lemma {:induction false} NamesGivenAt(w: Words, opts: seq<Opt>, m: Config, n: nat, i: nat)
    requires i < n <= |opts| && NamesGiven(w, opts, m, n)
    ensures IsAsked(w, opts, m, false, Defaults(opts), i) ==> opts[i].name != []
  {
    NamesFewer(w, opts, m, i + 1, n);
  }

  lemma {:induction false} NamesOneMore(
    w: Words, opts: seq<Opt>, m: Config, config: Config, state: string, result: string, at: Place)
    requires Stands(w, opts, m, config, state, result, at) && !at.Over?
    requires Begun(|opts|, at) <= |opts| && NamesGiven(w, opts, m, Begun(|opts|, at))
    ensures Begun(|opts|, NextPlace(w, opts, config, at)) <= |opts|
    ensures Nameless(w, opts, config, at) ==> !NamesGiven(w, opts, m, |opts|)
    ensures !Nameless(w, opts, config, at) ==> NamesGiven(w, opts, m, Begun(|opts|, NextPlace(w, opts, config, at)))
  {
    if Nameless(w, opts, config, at) && NamesGiven(w, opts, m, |opts|) {
      NamesGivenAt(w, opts, m, |opts|, at.i);
    }
  }
}
