/**
  The resolver object returned by the factory in template.js: `template.cache` and
  `template.strings` are fields that its methods update in place, and every thunk's
  private `compiled` variable is an entry of the `compiled` map. Each method is proved
  against the value-level model in TemplateModel through `Abs()`.
 */
module TemplateResolver {
  import opened TemplateModel

  class Resolver<D> {
    const prefix: Option<string>
    const lookup: string -> string
    const compile: (string, Settings) -> Renderer<D>

    var cache: map<string, Thunk>
    var strings: map<string, string>
    var compiled: map<Thunk, Renderer<D>>

    /** The inline markup each name was first registered with. */
    ghost var sources: map<string, string>
    /** Every call made to the compiler, in order. */
    ghost var log: seq<Event>

    ghost function Collaborators(): Env<D> {
      Env(prefix, lookup, compile)
    }

    ghost function Abs(): State<D>
      reads this
    {
      State(cache, strings, compiled, sources, log)
    }

    ghost predicate Valid()
      reads this
    {
      TemplateModel.Valid(Collaborators(), Abs())
    }

    /** The factory call (lines 18-24 and 100-101); the lookup is always supplied. */
    constructor (prefix: Option<string>, lookup: string -> string, compile: (string, Settings) -> Renderer<D>)
      ensures Valid()
      ensures this.prefix == prefix && this.lookup == lookup && this.compile == compile
      ensures Abs() == Init()
    {
      this.prefix := prefix;
      this.lookup := lookup;
      this.compile := compile;
      cache, strings, compiled := map[], map[], map[];
      sources, log := map[], [];
      new;
      InitValid(Collaborators());
    }

    /** Calling a renderer that `Template` bound (lines 47-53 for an inline thunk, 68-71
        for an external one). */
    method Render(t: Thunk, data: D) returns (html: string)
      requires Valid() && t.id in cache && cache[t.id] == t
      modifies this
      ensures Valid()
      ensures Abs() == Invoke(Collaborators(), old(Abs()), t, data).state
      ensures Rendered(html) == Invoke(Collaborators(), old(Abs()), t, data).out
      ensures t.kind == Inline ==> t.id in old(sources)
      ensures html == compile(Source(Collaborators(), old(Abs()), t), TemplateSettings)(data)
      ensures cache == old(cache) && sources == old(sources) && t in compiled
      ensures t in old(compiled) ==> strings == old(strings) && compiled == old(compiled) && log == old(log)
      ensures t !in old(compiled) && t.kind == Inline ==>
        && strings == old(strings) - {t.id}
        && log == old(log) + [CompileInline(t.id, old(strings)[t.id])]
      ensures t !in old(compiled) && t.kind == External ==>
        && strings == old(strings)
        && log == old(log) + [LookupAndCompile(t.id, LookupKey(prefix, t.id), lookup(LookupKey(prefix, t.id)))]
    {
      ghost var s0 := Abs();
      InvokePreservesValid(Collaborators(), s0, t, data);
      RenderUsesSource(Collaborators(), s0, t, data);
      if t !in compiled {
        var c;
        if t.kind == Inline {
          var src := strings[t.id];
          c := compile(src, TemplateSettings);
          strings := strings - {t.id};
          log := log + [CompileInline(t.id, src)];
        } else {
          var key := LookupKey(prefix, t.id);
          var src := lookup(key);
          c := compile(src, TemplateSettings);
          log := log + [LookupAndCompile(t.id, key, src)];
        }
        compiled := compiled[t := c];
      }
      html := compiled[t](data);
    }

    /** The public `template(tmplName, tmplData, htmlString)` (lines 85-98). */
    method Template(name: string, data: Option<D>, html: Option<string>) returns (out: Output)
      requires Valid()
      modifies this
      ensures Valid()
      ensures Abs() == Resolve(Collaborators(), old(Abs()), name, data, html).state
      ensures out == Resolve(Collaborators(), old(Abs()), name, data, html).out
      ensures name in old(cache) ==> cache == old(cache)
      ensures name !in old(cache) && Given(html) ==>
        cache == old(cache)[name := HtmlTemplate(name)]
      ensures name !in old(cache) && Given(html) && data.Some? ==>
        strings == old(strings) && log == old(log) + [CompileInline(name, html.value)]
      ensures name !in old(cache) && !Given(html) ==>
        cache == old(cache)[name := ScriptTemplate(name)] && strings == old(strings)
      ensures data.None? ==>
        && out == RendererOf(cache[name])
        && compiled == old(compiled) && log == old(log)
        && strings == (if name !in old(cache) && Given(html) then old(strings)[name := html.value] else old(strings))
    {
      ghost var s0 := Abs();
      if name !in cache {
        if Given(html) {
          strings := strings[name := html.value];
          sources := sources[name := html.value];
          cache := cache[name := HtmlTemplate(name)];
        } else {
          cache := cache[name := ScriptTemplate(name)];
        }
      }
      RegisterPreservesValid(Collaborators(), s0, name, html);
      assert Abs() == Register(s0, name, html);
      if name !in s0.cache && Given(html) && data.Some? {
        FirstInlineRender(Collaborators(), s0, name, data.value, html.value);
      }
      if data.Some? {
        var h := Render(cache[name], data.value);
        out := Rendered(h);
      } else {
        out := RendererOf(cache[name]);
      }
    }
  }
}
