/** A plugin built with the SDK: what it registers, and the loop that answers the host. */
module SdkPlugin {
  import opened Wrappers

  // ---- Registration -------------------------------------------------------

  datatype ToolSpec = ToolSpec(name: string, description: string, capability: string, rateLimit: real)

  datatype MutationSpec = MutationSpec(
    action: string, description: string, risk: string, rateLimit: real, hasHandler: bool)

  const VERBS: seq<string> := ["aggregate_", "get_", "list_", "search_"]

  predicate WordChar(c: char) {
    'a' <= c <= 'z' || '0' <= c <= '9' || c == '_'
  }

  predicate Word(s: string) {
    s != [] && 'a' <= s[0] <= 'z' && forall c | c in s :: WordChar(c)
  }

  /** At least two words joined by dots. */
  predicate Action(s: string) {
    exists i | 0 < i < |s| :: s[i] == '.' && Word(s[..i]) && (Word(s[i + 1..]) || Action(s[i + 1..]))
  }

  predicate SaysAVerb(name: string) {
    exists v | v in VERBS :: |v| < |name| && v <= name
  }

  predicate ToolOk(t: ToolSpec) {
    && 2 <= |t.name| <= 48 && Word(t.name) && SaysAVerb(t.name)
    && t.description != "" && t.capability in {"", "read", "propose", "approve", "admin"} && t.rateLimit >= 0.0
  }

  predicate MutationOk(m: MutationSpec) {
    && Action(m.action) && m.description != "" && m.risk in {"low", "medium", "high", "critical"}
    && m.rateLimit >= 0.0 && m.hasHandler
  }

  /** Which tools are well formed. */
  lemma ToolOkExactly(t: ToolSpec)
    ensures ToolOk(t)
            <==> && 2 <= |t.name| <= 48 && 'a' <= t.name[0] <= 'z'
                 && (forall i | 0 <= i < |t.name| ::
                       'a' <= t.name[i] <= 'z' || '0' <= t.name[i] <= '9' || t.name[i] == '_')
                 && (("aggregate_" <= t.name && |t.name| > 10) || ("get_" <= t.name && |t.name| > 4)
                     || ("list_" <= t.name && |t.name| > 5) || ("search_" <= t.name && |t.name| > 7))
                 && t.description != "" && t.rateLimit >= 0.0
                 && (t.capability == "" || t.capability == "read" || t.capability == "propose"
                     || t.capability == "approve" || t.capability == "admin")
  {
    VerbExactly(t.name);
    assert forall i | 0 <= i < |t.name| :: t.name[i] in t.name;
  }

  lemma VerbExactly(name: string)
    ensures SaysAVerb(name)
            <==> || ("aggregate_" <= name && |name| > 10) || ("get_" <= name && |name| > 4)
                 || ("list_" <= name && |name| > 5) || ("search_" <= name && |name| > 7)
  {
    var v := VERBS;
    assert v[0] == "aggregate_" && v[1] == "get_" && v[2] == "list_" && v[3] == "search_";
    assert v[0] in VERBS && v[1] in VERBS && v[2] in VERBS && v[3] in VERBS;
    assert forall x :: x in VERBS <==> x == v[0] || x == v[1] || x == v[2] || x == v[3];
  }

  /** Which actions are well formed: words and dots, a letter first and after every dot, and a dot somewhere. */
  predicate Dotted(s: string) {
    && s != [] && '.' in s && 'a' <= s[0] <= 'z'
    && (forall i | 0 <= i < |s| :: WordChar(s[i]) || s[i] == '.')
    && (forall i | 0 <= i < |s| :: LetterAfterDot(s, i))
  }

  predicate LetterAfterDot(s: string, i: nat)
    requires i < |s|
  {
    s[i] == '.' ==> i + 1 < |s| && 'a' <= s[i + 1] <= 'z'
  }

  lemma {:induction false} ActionIsDotted(s: string)
    ensures Action(s) ==> Dotted(s)
    decreases |s|
  {
    if i :| 0 < i < |s| && s[i] == '.' && Word(s[..i]) && (Word(s[i + 1..]) || Action(s[i + 1..])) {
      var rest := s[i + 1..];
      ActionIsDotted(rest);
      assert rest != [] && 'a' <= rest[0] <= 'z';
      forall j | 0 <= j < |s|
        ensures WordChar(s[j]) || s[j] == '.'
        ensures LetterAfterDot(s, j)
      {
        if j < i {
          assert s[j] == s[..i][j] && s[..i][j] in s[..i];
        } else if j == i {
          assert s[i + 1] == rest[0];
        } else {
          assert s[j] == rest[j - i - 1] && rest[j - i - 1] in rest;
          if Action(rest) { assert LetterAfterDot(rest, j - i - 1); }
        }
      }
    }
  }

  lemma {:induction false} DottedIsAction(s: string)
    requires Dotted(s)
    ensures Action(s)
    decreases |s|
  {
    var i := FirstDot(s);
    var rest := s[i + 1..];
    assert forall c | c in s[..i] :: WordChar(c);
    assert forall j | 0 <= j < |rest| :: rest[j] == s[i + 1 + j];
    assert LetterAfterDot(s, i);
    forall j | 0 <= j < |rest| ensures LetterAfterDot(rest, j) { assert LetterAfterDot(s, i + 1 + j); }
    if '.' in rest {
      DottedIsAction(rest);
    } else {
      assert forall c | c in rest :: WordChar(c);
    }
    assert s[i] == '.' && Word(s[..i]) && (Word(s[i + 1..]) || Action(s[i + 1..]));
  }

  lemma FirstDot(s: string) returns (i: nat)
    requires '.' in s && s[0] != '.'
    ensures 0 < i < |s| && s[i] == '.' && forall j | 0 <= j < i :: s[j] != '.'
  {
    i := 0;
    while s[i] != '.'
      invariant i < |s| && (forall j | 0 <= j < i :: s[j] != '.') && exists j :: i <= j < |s| && s[j] == '.'
      decreases |s| - i
    {
      i := i + 1;
    }
  }

  /** Which mutations are well formed. */
  lemma MutationOkExactly(m: MutationSpec)
    ensures MutationOk(m)
            <==> && Dotted(m.action) && m.description != "" && m.rateLimit >= 0.0 && m.hasHandler
                 && (m.risk == "low" || m.risk == "medium" || m.risk == "high" || m.risk == "critical")
  {
    ActionIsDotted(m.action);
    if Dotted(m.action) { DottedIsAction(m.action); }
  }

  function ToolKey(t: ToolSpec): string { t.name }

  function MutationKey(m: MutationSpec): string { m.action }

  predicate Taken<S>(ok: S -> bool, key: S -> string, regs: seq<S>, name: string) {
    exists j | 0 <= j < |regs| :: ok(regs[j]) && key(regs[j]) == name
  }

  /** A registration stands when it is well formed and no well-formed one took its name before it. */
  predicate Stands<S>(ok: S -> bool, key: S -> string, before: seq<S>, s: S) {
    ok(s) && !Taken(ok, key, before, key(s))
  }

  /** The registrations that stand, in order. */
  function Accepted<S>(ok: S -> bool, key: S -> string, regs: seq<S>): seq<S> {
    if regs == [] then [] else
      var before, s := regs[..|regs| - 1], regs[|regs| - 1];
      Accepted(ok, key, before) + (if Stands(ok, key, before, s) then [s] else [])
  }

  lemma AcceptedNext<S>(ok: S -> bool, key: S -> string, regs: seq<S>, s: S)
    ensures Accepted(ok, key, regs + [s]) == Accepted(ok, key, regs) + (if Stands(ok, key, regs, s) then [s] else [])
  {
    assert (regs + [s])[..|regs|] == regs;
  }

  lemma TakenNext<S>(ok: S -> bool, key: S -> string, regs: seq<S>, s: S, name: string)
    ensures Taken(ok, key, regs + [s], name) <==> Taken(ok, key, regs, name) || (ok(s) && key(s) == name)
  {
    var all := regs + [s];
    if j :| 0 <= j < |regs| && ok(regs[j]) && key(regs[j]) == name { assert all[j] == regs[j]; }
    if ok(s) && key(s) == name { assert all[|regs|] == s; }
  }

  /** Each name that is well formed anywhere is listed, by exactly one registration, the first. */
  lemma {:induction false} ListedOnce<S(!new)>(ok: S -> bool, key: S -> string, regs: seq<S>, name: string)
    ensures var names := Keys(key, Accepted(ok, key, regs));
            multiset(names)[name] == if Taken(ok, key, regs, name) then 1 else 0
  {
    if regs == [] {
    } else {
      var before, s := regs[..|regs| - 1], regs[|regs| - 1];
      assert regs == before + [s];
      ListedOnce(ok, key, before, name);
      TakenNext(ok, key, before, s, name);
      AcceptedNext(ok, key, before, s);
      KeysNext(key, Accepted(ok, key, before), s);
      assert Accepted(ok, key, before) + [] == Accepted(ok, key, before);
    }
  }

  function Keys<S>(key: S -> string, xs: seq<S>): seq<string> {
    seq(|xs|, i requires 0 <= i < |xs| => key(xs[i]))
  }

  lemma KeysNext<S>(key: S -> string, xs: seq<S>, s: S)
    ensures Keys(key, xs + [s]) == Keys(key, xs) + [key(s)]
  {
  }

  /** What is listed stays listed, in place, as more is registered. */
  lemma {:induction false} AcceptedGrows<S>(ok: S -> bool, key: S -> string, regs: seq<S>, n: nat)
    requires n <= |regs|
    ensures Accepted(ok, key, regs[..n]) <= Accepted(ok, key, regs)
  {
    if n == |regs| {
      assert regs[..n] == regs;
    } else {
      var before := regs[..|regs| - 1];
      AcceptedGrows(ok, key, before, n);
      assert before[..n] == regs[..n];
    }
  }

  // ---- Requests -----------------------------------------------------------

  type Config = map<string, string>

  datatype Verb = Plan | Apply | Observe

  /** A request, by method; parameters that do not decode are absent. */
  datatype Call =
    | Describe | Configure(config: Option<Config>) | CallTool(name: Option<string>)
    | Mutate(verb: Verb, action: Option<string>) | ReadResource(path: Option<string>)
    | GetPrompt(prompt: Option<string>) | Health | Shutdown | Other(word: string)

  datatype Frame = Blank | Garbled | Request(id: nat, call: Call)

  /** What the plugin's own code does when a request reaches it. */
  datatype Behaviour = Returns(value: string) | Fails(code: string) | Panics

  datatype Body =
    | Described(tools: seq<ToolSpec>, mutations: seq<MutationSpec>) | Value(value: string) | Okay | Error(code: string)

  datatype Response = Response(id: nat, body: Body)

  const INVALID: string := "INVALID_PARAMS"
  const INTERNAL: string := "INTERNAL"

  function BodyOf(b: Behaviour): Body {
    match b case Returns(v) => Value(v) case Fails(code) => Error(code) case Panics => Error(INTERNAL)
  }

  /** The names a request is looked up among. */
  datatype Served = Served(
    tools: seq<ToolSpec>, mutations: seq<MutationSpec>, resources: set<string>, prompts: set<string>)

  predicate Names<S>(key: S -> string, xs: seq<S>, name: Option<string>) {
    name.Some? && exists i | 0 <= i < |xs| :: key(xs[i]) == name.value
  }

  /** Whether a request reaches the plugin's own code. */
  predicate Reaches(s: Served, call: Call) {
    match call
    case CallTool(name) => Names(ToolKey, s.tools, name)
    case Mutate(_, action) => Names(MutationKey, s.mutations, action)
    case ReadResource(path) => path.Some? && path.value in s.resources
    case GetPrompt(prompt) => prompt.Some? && prompt.value in s.prompts
    case Health => true
    case Shutdown => true
    case _ => false
  }

  /** The answer to one request. */
  function Answer(s: Served, call: Call, b: Behaviour): Body {
    if Reaches(s, call) then BodyOf(b)
    else match call
      case Describe => Described(s.tools, s.mutations)
      case Configure(Some(_)) => Okay
      case _ => Error(INVALID)
  }

  /**
   What a request that reaches the plugin's code is answered with: the value returned,
   the code of a failure, and INTERNAL for a panic.
   */
  lemma HandledAnswers(s: Served, call: Call, value: string, code: string)
    requires call in {Health, Shutdown}
             || (call.CallTool? && call.name.Some? && exists t | t in s.tools :: t.name == call.name.value)
             || (call.Mutate? && call.action.Some? && exists m | m in s.mutations :: m.action == call.action.value)
             || (call.ReadResource? && call.path.Some? && call.path.value in s.resources)
             || (call.GetPrompt? && call.prompt.Some? && call.prompt.value in s.prompts)
    ensures Answer(s, call, Returns(value)) == Value(value)
    ensures Answer(s, call, Fails(code)) == Error(code)
    ensures Answer(s, call, Panics) == Error("INTERNAL")
  {
    if call.CallTool? {
      var t :| t in s.tools && t.name == call.name.value;
      var i :| 0 <= i < |s.tools| && s.tools[i] == t;
      assert ToolKey(s.tools[i]) == call.name.value;
    }
    if call.Mutate? {
      var m :| m in s.mutations && m.action == call.action.value;
      var i :| 0 <= i < |s.mutations| && s.mutations[i] == m;
      assert MutationKey(s.mutations[i]) == call.action.value;
    }
  }

  /** What is answered without the plugin's code: descriptions, settings taken, and everything else refused. */
  lemma UnhandledAnswers(s: Served, call: Call, b: Behaviour)
    ensures Answer(s, Describe, b) == Described(s.tools, s.mutations)
    ensures call.Configure? ==> Answer(s, call, b) == if call.config.Some? then Okay else Error("INVALID_PARAMS")
    ensures call.Other? ==> Answer(s, call, b) == Error("INVALID_PARAMS")
    ensures call.CallTool? && (call.name.None? || forall t | t in s.tools :: t.name != call.name.value) ==>
              Answer(s, call, b) == Error("INVALID_PARAMS")
    ensures call.Mutate? && (call.action.None? || forall m | m in s.mutations :: m.action != call.action.value) ==>
              Answer(s, call, b) == Error("INVALID_PARAMS")
    ensures call.ReadResource? && (call.path.None? || call.path.value !in s.resources) ==>
              Answer(s, call, b) == Error("INVALID_PARAMS")
    ensures call.GetPrompt? && (call.prompt.None? || call.prompt.value !in s.prompts) ==>
              Answer(s, call, b) == Error("INVALID_PARAMS")
  {
  }

  function Configured(config: Config, call: Call): Config {
    if call.Configure? && call.config.Some? then call.config.value else config
  }

  /** The plugin's own code: what it does with the nth request, given the settings in force. */
  type Code = (nat, Call, Config) -> Behaviour

  predicate Stops(f: Frame) {
    f.Request? && f.call == Shutdown
  }

  /** The frames up to and including the first shutdown. */
  function Heard(frames: seq<Frame>): seq<Frame> {
    if frames == [] then [] else if Stops(frames[0]) then [frames[0]] else [frames[0]] + Heard(frames[1..])
  }

  /** The frames that ask for something. */
  function Asked(frames: seq<Frame>): seq<Frame> {
    if frames == [] then [] else
      Asked(frames[..|frames| - 1]) + (if frames[|frames| - 1].Request? then [frames[|frames| - 1]] else [])
  }

  /** The settings in force after some requests: those of the last configure that decodes. */
  function ConfigAfter(config: Config, asked: seq<Frame>): Config {
    if asked == [] then config else
      var f := asked[|asked| - 1];
      if f.Request? then Configured(ConfigAfter(config, asked[..|asked| - 1]), f.call)
      else ConfigAfter(config, asked[..|asked| - 1])
  }

  /** The settings in force are those of the last configure that decodes, or those there were. */
  lemma {:induction false} ConfigIsLast(config: Config, asked: seq<Frame>, i: nat, c: Config)
    ensures (forall f | f in asked :: !(f.Request? && f.call.Configure? && f.call.config.Some?)) ==>
              ConfigAfter(config, asked) == config
    ensures i < |asked| && asked[i].Request? && asked[i].call == Configure(Some(c))
            && (forall j | i < j < |asked| ::
                  !(asked[j].Request? && asked[j].call.Configure? && asked[j].call.config.Some?)) ==>
              ConfigAfter(config, asked) == c
  {
    if asked == [] {
    } else {
      var n := |asked| - 1;
      ConfigIsLast(config, asked[..n], i, c);
      assert asked[n] in asked;
    }
  }

  /** The requests keep their order: those of two runs of frames one after the other, and of one by itself. */
  lemma {:induction false} AskedInOrder(some: seq<Frame>, more: seq<Frame>, f: Frame)
    ensures Asked(some + more) == Asked(some) + Asked(more)
    ensures Asked([f]) == if f.Request? then [f] else []
  {
    assert [f][..0] == [];
    if more == [] {
      assert some + more == some;
    } else {
      var n := |more| - 1;
      AskedInOrder(some, more[..n], f);
      assert (some + more)[..|some + more| - 1] == some + more[..n];
    }
  }

  lemma {:induction false} HeardIsPrefix(frames: seq<Frame>, n: nat)
    requires n <= |frames| && forall i | 0 <= i < n :: !Stops(frames[i])
    ensures n == |frames| ==> Heard(frames) == frames[..n]
    ensures n < |frames| && Stops(frames[n]) ==> Heard(frames) == frames[..n + 1]
  {
    if frames != [] && n > 0 {
      HeardIsPrefix(frames[1..], n - 1);
      assert frames == [frames[0]] + frames[1..];
    }
  }

  /** The ith response answers the ith request, under the settings then in force. */
  ghost predicate AnswersAt(s: Served, config: Config, asked: seq<Frame>, code: Code, out: seq<Response>, i: nat)
    requires i < |out| == |asked|
  {
    && asked[i].Request? && out[i].id == asked[i].id
    && out[i].body == Answer(s, asked[i].call, code(i, asked[i].call, ConfigAfter(config, asked[..i])))
  }

  /** There is one response for each request, and each answers its own. */
  ghost predicate Answers(s: Served, config: Config, asked: seq<Frame>, code: Code, out: seq<Response>) {
    |out| == |asked| && forall i | 0 <= i < |out| :: AnswersAt(s, config, asked, code, out, i)
  }

  lemma AnswersNext(s: Served, config: Config, asked: seq<Frame>, code: Code, out: seq<Response>, f: Frame)
    requires Answers(s, config, asked, code, out) && f.Request?
    ensures var b := code(|asked|, f.call, ConfigAfter(config, asked));
            Answers(s, config, asked + [f], code, out + [Response(f.id, Answer(s, f.call, b))])
    ensures ConfigAfter(config, asked + [f]) == Configured(ConfigAfter(config, asked), f.call)
  {
    var next := asked + [f];
    var replies := out + [Response(f.id, Answer(s, f.call, code(|asked|, f.call, ConfigAfter(config, asked))))];
    assert next[..|asked|] == asked;
    forall i | 0 <= i < |replies| ensures AnswersAt(s, config, next, code, replies, i) {
      if i < |out| {
        assert AnswersAt(s, config, asked, code, out, i);
        assert next[..i] == asked[..i];
      }
    }
  }

  class Plugin {
    var tools: map<string, ToolSpec>
    var order: seq<string>
    var mutations: map<string, MutationSpec>
    var mutOrder: seq<string>
    var errs: nat
    var config: Config
    const resources: set<string>
    const prompts: set<string>
    ghost var toolsSeen: seq<ToolSpec>
    ghost var mutationsSeen: seq<MutationSpec>

    /** The maps and orders hold what stands of all that was registered. */
    ghost predicate Valid()
      reads this
    {
      && Holds(ToolOk, ToolKey, tools, order, toolsSeen)
      && Holds(MutationOk, MutationKey, mutations, mutOrder, mutationsSeen)
    }

    constructor (resources: set<string>, prompts: set<string>)
      ensures Valid() && toolsSeen == [] && mutationsSeen == [] && errs == 0 && config == map[]
      ensures this.resources == resources && this.prompts == prompts
    {
      tools, order, mutations, mutOrder := map[], [], map[], [];
      errs, config, toolsSeen, mutationsSeen := 0, map[], [], [];
      this.resources, this.prompts := resources, prompts;
    }

    method Tool(spec: ToolSpec)
      requires Valid()
      modifies this
      ensures Valid() && toolsSeen == old(toolsSeen) + [spec] && mutationsSeen == old(mutationsSeen)
      ensures errs == old(errs) + if Stands(ToolOk, ToolKey, old(toolsSeen), spec) then 0 else 1
    {
      HoldsNext(ToolOk, ToolKey, tools, order, toolsSeen, spec);
      toolsSeen := toolsSeen + [spec];
      if !ToolOk(spec) {
        errs := errs + 1;
        return;
      }
      if spec.name in tools {
        errs := errs + 1;
        return;
      }
      tools := tools[spec.name := spec];
      order := order + [spec.name];
    }

    method RegisterMutation(spec: MutationSpec)
      requires Valid()
      modifies this
      ensures Valid() && toolsSeen == old(toolsSeen) && mutationsSeen == old(mutationsSeen) + [spec]
      ensures errs == old(errs) + if Stands(MutationOk, MutationKey, old(mutationsSeen), spec) then 0 else 1
    {
      HoldsNext(MutationOk, MutationKey, mutations, mutOrder, mutationsSeen, spec);
      mutationsSeen := mutationsSeen + [spec];
      if !MutationOk(spec) {
        errs := errs + 1;
        return;
      }
      if spec.action in mutations {
        errs := errs + 1;
        return;
      }
      mutations := mutations[spec.action := spec];
      mutOrder := mutOrder + [spec.action];
    }

    /** What stands of everything registered. */
    ghost function View(): Served
      reads this
    {
      Served(Accepted(ToolOk, ToolKey, toolsSeen), Accepted(MutationOk, MutationKey, mutationsSeen), resources, prompts)
    }

    /** Lists what stands, in the order it was registered. */
    method DescribeAll() returns (t: seq<ToolSpec>, m: seq<MutationSpec>)
      requires Valid()
      ensures t == View().tools && m == View().mutations
    {
      t, m := [], [];
      for i := 0 to |order|
        invariant t == View().tools[..i]
      {
        t := t + [tools[order[i]]];
      }
      for i := 0 to |mutOrder|
        invariant m == View().mutations[..i]
      {
        m := m + [mutations[mutOrder[i]]];
      }
    }

    /** One request: `b` is what the plugin's own code does if the request reaches it. */
    method Dispatch(call: Call, b: Behaviour) returns (body: Body)
      requires Valid()
      modifies this`config
      ensures Valid() && View() == old(View())
      ensures body == Answer(View(), call, b) && config == Configured(old(config), call)
    {
      NamesTaken(ToolOk, ToolKey, tools, order, toolsSeen);
      NamesTaken(MutationOk, MutationKey, mutations, mutOrder, mutationsSeen);
      match call
      case Describe =>
        var t, m := DescribeAll();
        return Described(t, m);
      case Configure(None) => return Error(INVALID);
      case Configure(Some(c)) =>
        config := c;
        return Okay;
      case CallTool(name) =>
        return if name.Some? && name.value in tools then BodyOf(b) else Error(INVALID);
      case Mutate(_, action) =>
        return if action.Some? && action.value in mutations then BodyOf(b) else Error(INVALID);
      case ReadResource(path) =>
        return if path.Some? && path.value in resources then BodyOf(b) else Error(INVALID);
      case GetPrompt(prompt) =>
        return if prompt.Some? && prompt.value in prompts then BodyOf(b) else Error(INVALID);
      case Health => return BodyOf(b);
      case Shutdown => return BodyOf(b);
      case Other(_) => return Error(INVALID);
    }

    /** Answers one more request. */
    method Reply(f: Frame, code: Code, out: seq<Response>, ghost first: Config, ghost asked: seq<Frame>)
      returns (next: seq<Response>)
      requires Valid() && f.Request?
      requires Answers(View(), first, asked, code, out) && config == ConfigAfter(first, asked)
      modifies this`config
      ensures Valid() && View() == old(View())
      ensures Answers(View(), first, asked + [f], code, next) && config == ConfigAfter(first, asked + [f])
    {
      AnswersNext(View(), first, asked, code, out, f);
      var body := Dispatch(f.call, code(|out|, f.call, config));
      next := out + [Response(f.id, body)];
    }

    /**
     The request loop, over the frames the host sends before it hangs up. One response
     for each frame that can be read, in order and with its id, up to and including the
     first shutdown and none after; a handler that panics is answered like any other.
     */
    method Serve(frames: seq<Frame>, code: Code) returns (out: seq<Response>, stopped: bool)
      requires Valid()
      modifies this`config
      ensures Valid() && Answers(View(), old(config), Asked(Heard(frames)), code, out)
      ensures config == ConfigAfter(old(config), Asked(Heard(frames)))
      ensures stopped <==> exists i | 0 <= i < |frames| :: Stops(frames[i])
    {
      out := [];
      ghost var s, first, asked := View(), config, [];
      for n := 0 to |frames|
        invariant Valid() && View() == s
        invariant forall i | 0 <= i < n :: !Stops(frames[i])
        invariant asked == Asked(frames[..n])
        invariant Answers(s, first, asked, code, out)
        invariant config == ConfigAfter(first, asked)
      {
        AskedNext(frames, n);
        match frames[n]
        case Blank =>
        case Garbled =>
        case Request(_, call) =>
          out := Reply(frames[n], code, out, first, asked);
          asked := asked + [frames[n]];
          if call == Shutdown {
            HeardIsPrefix(frames, n);
            return out, true;
          }
      }
      HeardIsPrefix(frames, |frames|);
      return out, false;
    }
  }

  lemma AskedNext(frames: seq<Frame>, n: nat)
    requires n < |frames|
    ensures Asked(frames[..n + 1]) == Asked(frames[..n]) + if frames[n].Request? then [frames[n]] else []
  {
    assert frames[..n + 1][..n] == frames[..n];
  }

  lemma NamesTaken<S(!new)>(ok: S -> bool, key: S -> string, m: map<string, S>, order: seq<string>, regs: seq<S>)
    requires Holds(ok, key, m, order, regs)
    ensures forall name :: name in m <==> Names(key, Accepted(ok, key, regs), Some(name))
  {
    forall name ensures Taken(ok, key, regs, name) <==> Names(key, Accepted(ok, key, regs), Some(name)) {
      ListedOnce(ok, key, regs, name);
      var xs := Accepted(ok, key, regs);
      var names := Keys(key, xs);
      assert name in names <==> multiset(names)[name] > 0;
      assert forall i | 0 <= i < |xs| :: names[i] == key(xs[i]);
    }
  }

  /** A map and an order that list what stands of a run of registrations. */
  ghost predicate Holds<S>(ok: S -> bool, key: S -> string, m: map<string, S>, order: seq<string>, regs: seq<S>) {
    && (forall name :: name in m <==> Taken(ok, key, regs, name))
    && (forall i | 0 <= i < |order| :: order[i] in m)
    && Accepted(ok, key, regs) == seq(|order|, i requires 0 <= i < |order| && order[i] in m => m[order[i]])
  }

  lemma HoldsNext<S>(ok: S -> bool, key: S -> string, m: map<string, S>, order: seq<string>, regs: seq<S>, s: S)
    requires Holds(ok, key, m, order, regs)
    ensures if Stands(ok, key, regs, s) then Holds(ok, key, m[key(s) := s], order + [key(s)], regs + [s])
            else Holds(ok, key, m, order, regs + [s])
    ensures Taken(ok, key, regs, key(s)) <==> key(s) in m
  {
    AcceptedNext(ok, key, regs, s);
    forall name ensures Taken(ok, key, regs + [s], name) <==> Taken(ok, key, regs, name) || (ok(s) && key(s) == name) {
      TakenNext(ok, key, regs, s, name);
    }
  }
}
