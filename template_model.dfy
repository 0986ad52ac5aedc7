/**
  Value-level model of the template resolver built by the factory in template.js.

  The resolver keeps two tables: the renderer cache (template name -> lazily compiling
  thunk) and the pending inline sources (template name -> raw markup). Each thunk owns a
  private "compiled" slot; here every slot lives in one map keyed by the thunk itself.
  The underscore compiler and the element lookup are collaborators handed in as total
  functions (`Env`). Two bookkeeping fields, `sources` (the inline markup each name was
  first registered with) and `log` (every call made to the compiler), exist only so that
  "compiled at most once" and "first registration wins" can be stated.
 */
module TemplateModel {

  datatype Option<+T> = None | Some(value: T)

  /** Which memoized factory produced a thunk: htmlTemplate (Inline) or scriptTemplate (External). */
  datatype Kind = Inline | External

  /** A lazily compiling renderer. The factories are memoized by id, so a thunk is identified
      by the factory that made it and the id it was made for. */
  datatype Thunk = Thunk(kind: Kind, id: string)

  /** A compiled template: data in, markup out. */
  type Renderer<-D> = D -> string

  /** The fixed delimiter configuration handed to the compiler with every source. */
  datatype Settings = Settings(evaluate: string, interpolate: string, escape: string, variable: string)

  const TemplateSettings := Settings(
    "/<#([\\s\\S]+?)#>/g",
    "/\\{\\{\\{([\\s\\S]+?)\\}\\}\\}/g",
    "/\\{\\{([^\\}]+?)\\}\\}(?!\\})/g",
    "data")

  /** Lookup prefix used when none (or an empty one) is configured. */
  const DefaultPrefix := "tmpl-"

  /** The collaborators fixed when the resolver is created. */
  datatype Env<-D> = Env(prefix: Option<string>, lookup: string -> string, compile: (string, Settings) -> Renderer<D>)

  /** One call to the compiler, as a thunk's first render makes it. */
  datatype Event =
    | CompileInline(id: string, source: string)
    | LookupAndCompile(id: string, key: string, source: string)
  {
    function Target(): Thunk {
      match this
      case CompileInline(id, _) => Thunk(Inline, id)
      case LookupAndCompile(id, _, _) => Thunk(External, id)
    }
  }

  datatype State<-D> = State(
    cache: map<string, Thunk>,
    strings: map<string, string>,
    compiled: map<Thunk, Renderer<D>>,
    sources: map<string, string>,
    log: seq<Event>)

  /** What `template` returns: the rendered markup, or the cached renderer itself. */
  datatype Output = Rendered(html: string) | RendererOf(thunk: Thunk)

  datatype Step<-D> = Step(state: State<D>, out: Output)

  /** A freshly created resolver: `template.cache = {}` and `template.strings = {}`. */
  function Init<D>(): (s: State<D>)
    ensures s.cache.Keys == {} && s.strings.Keys == {} && s.compiled.Keys == {} && s.log == []
  {
    State(map[], map[], map[], map[], [])
  }

  /** JavaScript truthiness of a string option (the html string at line 89, the prefix at
      line 69): absent and "" are both falsy. */
  predicate Given(v: Option<string>): (b: bool)
    ensures b ==> v.Some?
    ensures v == Some("") ==> !b
    ensures v.Some? && v.value != "" ==> b
  {
    v.Some? && v.value != ""
  }

  /** The memoized factory htmlTemplate. */
  function HtmlTemplate(id: string): (t: Thunk)
    ensures t.kind == Inline && t.id == id
  {
    Thunk(Inline, id)
  }

  /** The memoized factory scriptTemplate. */
  function ScriptTemplate(id: string): (t: Thunk)
    ensures t.kind == External && t.id == id
  {
    Thunk(External, id)
  }

  /** `prefix || 'tmpl-'`. */
  function KeyPrefix(prefix: Option<string>): (p: string)
    ensures p != ""
    ensures Given(prefix) ==> p == prefix.value
    ensures !Given(prefix) ==> p == DefaultPrefix
  {
    if Given(prefix) then prefix.value else DefaultPrefix
  }

  /** The key the external thunk for `id` hands to the element lookup. */
  function LookupKey(prefix: Option<string>, id: string): (key: string)
    ensures |key| == |KeyPrefix(prefix)| + |id|
    ensures key[..|KeyPrefix(prefix)|] == KeyPrefix(prefix)
    ensures key[|KeyPrefix(prefix)|..] == id
  {
    KeyPrefix(prefix) + id
  }

  /** Number of compiler calls the log records for thunk `t`. */
  function CompileCount(log: seq<Event>, t: Thunk): nat {
    if log == [] then 0
    else CompileCount(log[..|log| - 1], t) + (if log[|log| - 1].Target() == t then 1 else 0)
  }

  /** The markup thunk `t` compiles: the registered inline source, or what the lookup
      returns for the prefixed key. */
  ghost function Source<D>(env: Env<D>, s: State<D>, t: Thunk): string
    requires t.kind == Inline ==> t.id in s.sources
  {
    if t.kind == Inline then s.sources[t.id] else env.lookup(LookupKey(env.prefix, t.id))
  }

  /** A logged compiler call used the right source (and, for lookups, the right key). */
  ghost predicate Recorded<D>(env: Env<D>, s: State<D>, e: Event) {
    match e
    case CompileInline(id, src) => id in s.sources && src == s.sources[id]
    case LookupAndCompile(id, key, src) => key == LookupKey(env.prefix, id) && src == env.lookup(key)
  }

  /** A name is bound to a thunk made for that same name, and the first inline source is
      remembered for exactly the names bound to an inline thunk. */
  ghost predicate Bindings<D>(s: State<D>) {
    && (forall n :: n in s.cache ==> s.cache[n].id == n)
    && (forall n :: n in s.sources <==> n in s.cache && s.cache[n].kind == Inline)
  }

  /** A source is pending exactly while its inline thunk has not compiled, and the pending
      source is the one registered first. */
  ghost predicate PendingSources<D>(s: State<D>) {
    && (forall n :: n in s.strings <==> n in s.cache && s.cache[n].kind == Inline && s.cache[n] !in s.compiled)
    && (forall n :: n in s.strings ==> n in s.sources && s.strings[n] == s.sources[n])
  }

  /** A filled slot belongs to a bound thunk and holds the compiled form of its source. */
  ghost predicate FilledSlots<D>(env: Env<D>, s: State<D>)
    requires Bindings(s)
  {
    forall t :: t in s.compiled ==>
      t.id in s.cache && s.cache[t.id] == t &&
      s.compiled[t] == env.compile(Source(env, s, t), TemplateSettings)
  }

  /** Every filled slot was filled by exactly one compiler call, an empty one by none, and
      every logged call used the right source and key. */
  ghost predicate CompileHistory<D>(env: Env<D>, s: State<D>) {
    && (forall t :: CompileCount(s.log, t) == if t in s.compiled then 1 else 0)
    && (forall i :: 0 <= i < |s.log| ==> Recorded(env, s, s.log[i]))
  }

  /** The resolver invariant. */
  ghost predicate Valid<D>(env: Env<D>, s: State<D>) {
    Bindings(s) && PendingSources(s) && FilledSlots(env, s) && CompileHistory(env, s)
  }

  /** What the inline thunk needs at its first render: its source is still pending. */
  predicate CanRun<D>(s: State<D>, t: Thunk) {
    t.kind == Inline && t !in s.compiled ==> t.id in s.strings
  }

  /** Lines 88-95: bind `name` on first use, never rebind it. */
  function Register<D>(s: State<D>, name: string, html: Option<string>): (r: State<D>)
    ensures name in r.cache && r.compiled == s.compiled && r.log == s.log
    ensures name in s.cache ==> r == s
    ensures name !in s.cache ==>
      && r.cache == s.cache[name := if Given(html) then HtmlTemplate(name) else ScriptTemplate(name)]
      && r.strings == (if Given(html) then s.strings[name := html.value] else s.strings)
      && r.sources == (if Given(html) then s.sources[name := html.value] else s.sources)
  {
    if name in s.cache then s
    else if Given(html) then
      s.(strings := s.strings[name := html.value],
         sources := s.sources[name := html.value],
         cache := s.cache[name := HtmlTemplate(name)])
    else s.(cache := s.cache[name := ScriptTemplate(name)])
  }

  /** Calling a thunk (lines 47-53 and 68-71): compile on the first call, then always
      apply the compiled renderer. */
  function Invoke<D>(env: Env<D>, s: State<D>, t: Thunk, data: D): (r: Step<D>)
    requires CanRun(s, t)
    ensures t in r.state.compiled && r.out == Rendered(r.state.compiled[t](data))
    ensures r.state.cache == s.cache && r.state.sources == s.sources
    ensures t in s.compiled ==> r.state == s
    ensures t !in s.compiled ==>
      && r.state.compiled.Keys == s.compiled.Keys + {t}
      && (forall u :: u in s.compiled ==> r.state.compiled[u] == s.compiled[u])
      && |r.state.log| == |s.log| + 1
      && r.state.log[..|s.log|] == s.log
      && r.state.log[|s.log|].Target() == t
    ensures t !in s.compiled && t.kind == Inline ==> r.state.strings == s.strings - {t.id}
    ensures t.kind == External ==> r.state.strings == s.strings
  {
    if t in s.compiled then Step(s, Rendered(s.compiled[t](data)))
    else if t.kind == Inline then
      var src := s.strings[t.id];
      var c := env.compile(src, TemplateSettings);
      Step(s.(compiled := s.compiled[t := c],
              strings := s.strings - {t.id},
              log := s.log + [CompileInline(t.id, src)]),
           Rendered(c(data)))
    else
      var key := LookupKey(env.prefix, t.id);
      var src := env.lookup(key);
      var c := env.compile(src, TemplateSettings);
      Step(s.(compiled := s.compiled[t := c],
              log := s.log + [LookupAndCompile(t.id, key, src)]),
           Rendered(c(data)))
  }

  /** The public `template(tmplName, tmplData, htmlString)` (lines 85-98). */
  function Resolve<D>(env: Env<D>, s: State<D>, name: string, data: Option<D>, html: Option<string>): (r: Step<D>)
    requires Valid(env, s)
    ensures name in r.state.cache && r.state.cache[name].id == name
    ensures name in s.cache ==> r.state.cache == s.cache
    ensures name !in s.cache ==> r.state.cache == s.cache[name := Thunk(if Given(html) then Inline else External, name)]
    ensures name !in s.cache && !Given(html) ==> r.state.strings == s.strings
    ensures data.None? ==> r.out == RendererOf(r.state.cache[name]) && r.state.log == s.log
    ensures data.Some? ==> r.out.Rendered? && r.state.cache[name] in r.state.compiled
  {
    var s1 := Register(s, name, html);
    var t := s1.cache[name];
    if data.Some? then Invoke(env, s1, t, data.value) else Step(s1, RendererOf(t))
  }

  lemma CompileCountAppend(log: seq<Event>, e: Event, t: Thunk)
    ensures CompileCount(log + [e], t) == CompileCount(log, t) + (if e.Target() == t then 1 else 0)
  {
  }

  lemma InitValid<D>(env: Env<D>)
    ensures Valid(env, Init())
  {
  }

  /** A valid state lets every bound thunk run. */
  lemma ValidCanRun<D>(env: Env<D>, s: State<D>, name: string)
    requires Valid(env, s) && name in s.cache
    ensures CanRun(s, s.cache[name])
  {
  }

  lemma RegisterPreservesValid<D>(env: Env<D>, s: State<D>, name: string, html: Option<string>)
    requires Valid(env, s)
    ensures Valid(env, Register(s, name, html))
  {
    var r := Register(s, name, html);
    if name !in s.cache {
      forall t | t in r.compiled
        ensures t.id in r.cache && r.cache[t.id] == t
        ensures r.compiled[t] == env.compile(Source(env, r, t), TemplateSettings)
      {
        assert t.id != name;
      }
      forall i | 0 <= i < |r.log| ensures Recorded(env, r, r.log[i]) {
        assert Recorded(env, s, s.log[i]);
      }
    }
  }

  /** The first render fills the slot of `t` and logs one compiler call; nothing else in
      the invariant is disturbed. */
  lemma FirstInvokePreservesValid<D>(env: Env<D>, s: State<D>, t: Thunk, data: D)
    requires Valid(env, s) && t.id in s.cache && s.cache[t.id] == t && t !in s.compiled
    ensures CanRun(s, t)
    ensures Valid(env, Invoke(env, s, t, data).state)
  {
    var r := Invoke(env, s, t, data).state;
    assert Bindings(r);
    assert PendingSources(r) by {
      forall n ensures n in r.strings <==> n in r.cache && r.cache[n].kind == Inline && r.cache[n] !in r.compiled {
        if n != t.id {
          assert n in r.strings <==> n in s.strings;
        }
      }
    }
    assert FilledSlots(env, r) by {
      forall u | u in r.compiled
        ensures u.id in r.cache && r.cache[u.id] == u
        ensures r.compiled[u] == env.compile(Source(env, r, u), TemplateSettings)
      {
        if u != t {
          assert u in s.compiled;
        }
      }
    }
    FirstInvokeKeepsHistory(env, s, t, data);
  }

  /** The compiler call of a first render is the only new log entry, and it records the
      right source and key. */
  lemma FirstInvokeKeepsHistory<D>(env: Env<D>, s: State<D>, t: Thunk, data: D)
    requires Valid(env, s) && t.id in s.cache && s.cache[t.id] == t && t !in s.compiled
    ensures CanRun(s, t)
    ensures CompileHistory(env, Invoke(env, s, t, data).state)
  {
    FirstInvokeCounts(env, s, t, data);
    FirstInvokeRecorded(env, s, t, data);
  }

  /** After a first render each filled slot still has exactly one compiler call. */
  lemma FirstInvokeCounts<D>(env: Env<D>, s: State<D>, t: Thunk, data: D)
    requires Valid(env, s) && t.id in s.cache && s.cache[t.id] == t && t !in s.compiled
    ensures CanRun(s, t)
    ensures var r := Invoke(env, s, t, data).state;
      forall u :: CompileCount(r.log, u) == if u in r.compiled then 1 else 0
  {
    var r := Invoke(env, s, t, data).state;
    var e := r.log[|s.log|];
    assert r.log == s.log + [e];
    forall u ensures CompileCount(r.log, u) == if u in r.compiled then 1 else 0 {
      CompileCountAppend(s.log, e, u);
    }
  }

  /** After a first render every logged compiler call, old and new, used the right source
      and key. */
  lemma FirstInvokeRecorded<D>(env: Env<D>, s: State<D>, t: Thunk, data: D)
    requires Valid(env, s) && t.id in s.cache && s.cache[t.id] == t && t !in s.compiled
    ensures CanRun(s, t)
    ensures var r := Invoke(env, s, t, data).state;
      forall i :: 0 <= i < |r.log| ==> Recorded(env, r, r.log[i])
  {
    var r := Invoke(env, s, t, data).state;
    forall i | 0 <= i < |r.log| ensures Recorded(env, r, r.log[i]) {
      if i < |s.log| {
        assert r.log[i] == s.log[i];
        assert Recorded(env, s, s.log[i]);
      }
    }
  }

  lemma InvokePreservesValid<D>(env: Env<D>, s: State<D>, t: Thunk, data: D)
    requires Valid(env, s) && t.id in s.cache && s.cache[t.id] == t
    ensures CanRun(s, t)
    ensures Valid(env, Invoke(env, s, t, data).state)
  {
    if t !in s.compiled {
      FirstInvokePreservesValid(env, s, t, data);
    }
  }

  lemma ResolvePreservesValid<D>(env: Env<D>, s: State<D>, name: string, data: Option<D>, html: Option<string>)
    requires Valid(env, s)
    ensures Valid(env, Resolve(env, s, name, data, html).state)
  {
    RegisterPreservesValid(env, s, name, html);
    var s1 := Register(s, name, html);
    if data.Some? {
      InvokePreservesValid(env, s1, s1.cache[name], data.value);
    }
  }

  /** Whatever state a bound thunk is in, it renders with the compiled form of its own
      source: the first registered inline markup, or the lookup under the prefixed key. */
  lemma RenderUsesSource<D>(env: Env<D>, s: State<D>, t: Thunk, data: D)
    requires Valid(env, s) && t.id in s.cache && s.cache[t.id] == t
    ensures t.kind == Inline ==> t.id in s.sources
    ensures CanRun(s, t)
    ensures Invoke(env, s, t, data).out == Rendered(env.compile(Source(env, s, t), TemplateSettings)(data))
  {
  }

  /** A call with data renders the first source ever given for the name: an html string
      passed after the name is bound is ignored, an empty one counts as none. */
  lemma ResolveOutput<D>(env: Env<D>, s: State<D>, name: string, data: D, html: Option<string>)
    requires Valid(env, s)
    ensures name in s.cache ==> s.cache[name].kind == Inline ==> name in s.sources
    ensures Resolve(env, s, name, Some(data), html).out == Rendered(env.compile(
      if name in s.cache then Source(env, s, s.cache[name])
      else if Given(html) then html.value
      else env.lookup(LookupKey(env.prefix, name)), TemplateSettings)(data))
  {
  }

  /** A call without data hands back the bound renderer: no compile, no lookup, and the
      only possible change is the first registration of the name. */
  lemma ResolveWithoutData<D>(env: Env<D>, s: State<D>, name: string, html: Option<string>)
    requires Valid(env, s)
    ensures var r := Resolve(env, s, name, None, html);
      && r.out == RendererOf(r.state.cache[name])
      && r.state.compiled == s.compiled && r.state.log == s.log
      && (name in s.cache ==> r.state == s)
      && (name !in s.cache && Given(html) ==> r.state.strings == s.strings[name := html.value])
      && (name !in s.cache && !Given(html) ==> r.state.strings == s.strings)
  {
  }

  /** A first call that brings both markup and data registers the source and consumes it
      in the same call: one compile, and the pending table ends as it began. */
  lemma FirstInlineRender<D>(env: Env<D>, s: State<D>, name: string, data: D, src: string)
    requires Valid(env, s) && name !in s.cache && src != ""
    ensures var r := Resolve(env, s, name, Some(data), Some(src)).state;
      && r.strings == s.strings
      && r.log == s.log + [CompileInline(name, src)]
      && r.compiled == s.compiled[HtmlTemplate(name) := env.compile(src, TemplateSettings)]
  {
  }

  /** Once a thunk has rendered, rendering it again changes nothing. */
  lemma InvokeAgainReusesSlot<D>(env: Env<D>, s: State<D>, t: Thunk, d1: D, d2: D)
    requires CanRun(s, t)
    ensures var s1 := Invoke(env, s, t, d1).state;
      CanRun(s1, t) && Invoke(env, s1, t, d2).state == s1
  {
  }

  /** Registering twice and then rendering: the second html string is dropped and the
      first one is compiled, exactly once. */
  lemma SecondRegistrationIgnored<D>(env: Env<D>, s: State<D>, name: string, src1: string, src2: string, data: D)
    requires Valid(env, s) && name !in s.cache && src1 != ""
    ensures var s1 := Resolve(env, s, name, None, Some(src1)).state;
      && Valid(env, s1)
      && var s2 := Resolve(env, s1, name, None, Some(src2)).state;
      && s2 == s1 && s1.strings == s.strings[name := src1]
      && Valid(env, s2)
      && var r := Resolve(env, s2, name, Some(data), None);
      && r.out == Rendered(env.compile(src1, TemplateSettings)(data))
      && r.state.log == s.log + [CompileInline(name, src1)]
      && r.state.strings == s.strings
  {
    ResolvePreservesValid(env, s, name, None, Some(src1));
    var s1 := Resolve(env, s, name, None, Some(src1)).state;
    ResolveOutput(env, s1, name, data, None);
    var r := Resolve(env, s1, name, Some(data), None);
    assert name !in s.strings;
    assert r.state.log[|s.log|] == CompileInline(name, src1);
  }

  /** An unregistered name rendered twice without markup: the lookup sees `prefix + name`
      once, and only once, and the pending sources are never touched. */
  lemma ExternalLookupOnce<D>(env: Env<D>, s: State<D>, name: string, d1: D, d2: D, html1: Option<string>, html2: Option<string>)
    requires Valid(env, s) && name !in s.cache && !Given(html1)
    ensures var s1 := Resolve(env, s, name, Some(d1), html1).state;
      && Valid(env, s1)
      && var key := LookupKey(env.prefix, name);
      && s1.log == s.log + [LookupAndCompile(name, key, env.lookup(key))]
      && s1.strings == s.strings
      && Resolve(env, s1, name, Some(d2), html2).state == s1
  {
    ResolvePreservesValid(env, s, name, Some(d1), html1);
  }

  /** One call of the public function per element. */
  datatype Call<D> = Call(name: string, data: Option<D>, html: Option<string>)

  /** The state after a sequence of calls. */
  ghost function Run<D>(env: Env<D>, s: State<D>, calls: seq<Call<D>>): (r: State<D>)
    requires Valid(env, s)
    ensures Valid(env, r)
    decreases |calls|
  {
    if calls == [] then s
    else
      var c := calls[0];
      ResolvePreservesValid(env, s, c.name, c.data, c.html);
      Run(env, Resolve(env, s, c.name, c.data, c.html).state, calls[1..])
  }

  /** The first binding of a name is permanent, whatever later calls pass. */
  lemma {:induction false} RunNeverRebinds<D>(env: Env<D>, s: State<D>, calls: seq<Call<D>>, name: string)
    requires Valid(env, s) && name in s.cache
    ensures name in Run(env, s, calls).cache && Run(env, s, calls).cache[name] == s.cache[name]
    decreases |calls|
  {
    if calls != [] {
      var c := calls[0];
      ResolvePreservesValid(env, s, c.name, c.data, c.html);
      var s1 := Resolve(env, s, c.name, c.data, c.html).state;
      assert Run(env, s, calls) == Run(env, s1, calls[1..]);
      RunNeverRebinds(env, s1, calls[1..], name);
    }
  }

  /** The two memoized factories give one thunk, hence one compiled slot, per id, and
      never share a thunk with each other. */
  lemma FactoriesMemoized(a: string, b: string)
    ensures HtmlTemplate(a) == HtmlTemplate(b) <==> a == b
    ensures ScriptTemplate(a) == ScriptTemplate(b) <==> a == b
    ensures HtmlTemplate(a) != ScriptTemplate(b)
  {
  }

  /** One call only adds to the history. */
  lemma ResolveExtends<D>(env: Env<D>, s: State<D>, name: string, data: Option<D>, html: Option<string>)
    requires Valid(env, s)
    ensures var r := Resolve(env, s, name, data, html).state;
      && s.log <= r.log
      && s.cache.Keys <= r.cache.Keys
      && (forall n :: n in s.sources ==> n in r.sources && r.sources[n] == s.sources[n])
  {
  }

  /** Calls only add to the history: the log, the bindings and the remembered sources grow. */
  lemma {:induction false} RunExtends<D>(env: Env<D>, s: State<D>, calls: seq<Call<D>>)
    requires Valid(env, s)
    ensures var r := Run(env, s, calls);
      && s.log <= r.log
      && s.cache.Keys <= r.cache.Keys
      && (forall n :: n in s.sources ==> n in r.sources && r.sources[n] == s.sources[n])
    decreases |calls|
  {
    if calls != [] {
      var c := calls[0];
      ResolvePreservesValid(env, s, c.name, c.data, c.html);
      ResolveExtends(env, s, c.name, c.data, c.html);
      var s1 := Resolve(env, s, c.name, c.data, c.html).state;
      assert Run(env, s, calls) == Run(env, s1, calls[1..]);
      RunExtends(env, s1, calls[1..]);
    }
  }

  /** From a fresh resolver, after any sequence of calls: each thunk was compiled at most
      once, each pending source belongs to an inline name not yet rendered, and every
      lookup used the key `prefix + id`. */
  lemma RunFromInit<D>(env: Env<D>, calls: seq<Call<D>>)
    ensures var r := Run(env, Init(), calls);
      && (forall t :: CompileCount(r.log, t) <= 1)
      && (forall n :: n in r.strings ==> n in r.cache && r.cache[n] == HtmlTemplate(n) && r.cache[n] !in r.compiled)
      && (forall i :: 0 <= i < |r.log| && r.log[i].LookupAndCompile? ==>
            r.log[i].key == LookupKey(env.prefix, r.log[i].id))
  {
  }
}
