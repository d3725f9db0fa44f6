/** The LLM front door: model-key validation, provider dispatch and tag extraction from an answer. */
module Llm {
  import opened Common
  import opened Strings

  /** The accepted model keys and the provider model each one names. */
  const MODEL_NAMES: map<string, string> := map[
    "opus" := "claude-3-opus-20240229",
    "sonnet" := "claude-3-5-sonnet-20240620",
    "haiku" := "claude-3-haiku-20240307",
    "gpt3.5" := "gpt-3.5-turbo",
    "gpt4" := "gpt-4-turbo-preview",
    "llama3:8b" := "llama3:8b",
    "llama3:instruct" := "llama3:instruct",
    "gpt-4o-mini" := "gpt-4o-mini"
  ]

  /** The model keys the assistant passes to `query_llm`; every call site names one literally. */
  datatype Model = Opus | Sonnet | Haiku | Gpt35 | Gpt4 | Llama8b | LlamaInstruct | Gpt4oMini

  /** The key string of a model. */
  function Key(m: Model): string {
    match m
    case Opus => "opus"
    case Sonnet => "sonnet"
    case Haiku => "haiku"
    case Gpt35 => "gpt3.5"
    case Gpt4 => "gpt4"
    case Llama8b => "llama3:8b"
    case LlamaInstruct => "llama3:instruct"
    case Gpt4oMini => "gpt-4o-mini"
  }

  datatype Provider = Claude | OpenAI | Ollama

  /** The provider a resolved model name is sent to. */
  function ProviderFor(modelName: string): Provider {
    if Contains(modelName, "claude") then Claude
    else if Contains(modelName, "gpt") then OpenAI
    else Ollama
  }

  /** Where `query_llm` sends a request for model key `model`: the provider and the resolved name,
      or the ValueError it raises for a key it does not know. */
  function Route(model: string): (r: Result<(Provider, string)>)
    ensures r.Err? <==> model !in MODEL_NAMES
    ensures r.Err? ==> r.error == ValueError("Unsupported model: " + model)
    ensures r.Ok? ==> r.value.1 == MODEL_NAMES[model]
  {
    if model !in MODEL_NAMES then Err(ValueError("Unsupported model: " + model))
    else Ok((ProviderFor(MODEL_NAMES[model]), MODEL_NAMES[model]))
  }

  /** `query_llm`: validate the key, then hand the query to the provider's client (`call`). */
  function QueryLlm<Q>(query: Q, model: string, call: (Provider, string, Q) -> string): (r: Result<string>)
    ensures r.Err? <==> model !in MODEL_NAMES
  {
    var (provider, name) :- Route(model);
    Ok(call(provider, name, query))
  }

  /** `query_llm` accepts every key of `Model` and sends it to the provider its family names. */
  lemma KeysAccepted(m: Model)
    ensures Route(Key(m)).Ok?
    ensures Route(Key(m)).value.0 ==
      match m
      case Opus | Sonnet | Haiku => Claude
      case Gpt35 | Gpt4 | Gpt4oMini => OpenAI
      case Llama8b | LlamaInstruct => Ollama
  {
    ClaudeRouting();
    OpenAIRouting();
    OllamaRouting();
  }

  /** The three Claude keys go to Claude. */
  lemma ClaudeRouting()
    ensures Route("opus") == Ok((Claude, "claude-3-opus-20240229"))
    ensures Route("sonnet") == Ok((Claude, "claude-3-5-sonnet-20240620"))
    ensures Route("haiku") == Ok((Claude, "claude-3-haiku-20240307"))
  {
    ContainsAt("claude-3-opus-20240229", "claude", 0);
    ContainsAt("claude-3-5-sonnet-20240620", "claude", 0);
    ContainsAt("claude-3-haiku-20240307", "claude", 0);
  }

  /** The three GPT keys go to OpenAI. */
  lemma OpenAIRouting()
    ensures Route("gpt3.5") == Ok((OpenAI, "gpt-3.5-turbo"))
    ensures Route("gpt4") == Ok((OpenAI, "gpt-4-turbo-preview"))
    ensures Route("gpt-4o-mini") == Ok((OpenAI, "gpt-4o-mini"))
  {
    RoutesToOpenAI("gpt-3.5-turbo");
    RoutesToOpenAI("gpt-4-turbo-preview");
    RoutesToOpenAI("gpt-4o-mini");
  }

  lemma RoutesToOpenAI(name: string)
    requires |name| >= 3 && name[..3] == "gpt" && 'c' !in name
    ensures ProviderFor(name) == OpenAI
  {
    Lacks(name, "claude", 0);
    ContainsAt(name, "gpt", 0);
  }

  /** The two llama3 keys go to the local Ollama server. */
  lemma OllamaRouting()
    ensures Route("llama3:8b") == Ok((Ollama, "llama3:8b"))
    ensures Route("llama3:instruct") == Ok((Ollama, "llama3:instruct"))
  {
    RoutesToOllama("llama3:8b");
    RoutesToOllama("llama3:instruct");
  }

  lemma RoutesToOllama(name: string)
    requires 'd' !in name && 'g' !in name
    ensures ProviderFor(name) == Ollama
  {
    Lacks(name, "claude", 4);
    Lacks(name, "gpt", 0);
  }

  /** A name that lacks one character of `sub` does not contain `sub`. */
  lemma Lacks(name: string, sub: string, m: nat)
    requires m < |sub| && sub[m] !in name
    ensures !Contains(name, sub)
  {
    forall i | 0 <= i ensures !OccursAt(name, sub, i) {
      if i + |sub| <= |name| {
        assert name[i..i + |sub|][m] == name[i + m];
      }
    }
    FindSpec(name, sub);
  }

  /** An occurrence begins with the first character of what occurs. */
  lemma NotOccursAt(s: string, sub: string, i: int)
    requires 0 <= i < |s| && |sub| > 0 && s[i] != sub[0]
    ensures !OccursAt(s, sub, i)
  {
    NotOccursAtOffset(s, sub, i, 0);
  }

  /** No occurrence at `i` when the character `m` places further differs from `sub[m]`. */
  lemma NotOccursAtOffset(s: string, sub: string, i: int, m: nat)
    requires 0 <= i && i + m < |s| && m < |sub| && s[i + m] != sub[m]
    ensures !OccursAt(s, sub, i)
  {
    if i + |sub| <= |s| {
      assert s[i..i + |sub|][m] == s[i + m];
    }
  }

  function Opening(tag: string): string {
    "<" + tag + ">"
  }

  function Closing(tag: string): string {
    "</" + tag + ">"
  }

  /** The pattern `<tag>(.*?)</tag>` can match with the opening tag at `i` and the closing tag at `j`. */
  predicate TagMatch(response: string, tag: string, i: int, j: int) {
    OccursAt(response, Opening(tag), i) && i + |Opening(tag)| <= j && OccursAt(response, Closing(tag), j)
  }

  /** `search_for_tag`: the text between the first `<tag>` and the first `</tag>` after it, or None.
      The tag name is taken literally (the tags the program asks for hold no regex metacharacters). */
  function SearchForTag(response: string, tag: string): Option<string> {
    match Find(response, Opening(tag))
    case None => None
    case Some(i) =>
      match FindFrom(response, Closing(tag), i + |Opening(tag)|)
      case None => None
      case Some(j) => Some(response[i + |Opening(tag)|..j])
  }

  /** The search succeeds exactly when some opening tag is followed by a closing tag. */
  lemma SearchForTagSomeIff(response: string, tag: string)
    ensures SearchForTag(response, tag).Some? <==> exists i, j :: TagMatch(response, tag, i, j)
  {
    if exists i, j :: TagMatch(response, tag, i, j) {
      var i, j :| TagMatch(response, tag, i, j);
      MatchIsFound(response, tag, i, j);
    }
    if SearchForTag(response, tag).Some? {
      FoundIsMatch(response, tag);
    }
  }

  lemma MatchIsFound(response: string, tag: string, i: int, j: int)
    requires TagMatch(response, tag, i, j)
    ensures SearchForTag(response, tag).Some?
  {
    var o := Opening(tag);
    var c := Closing(tag);
    assert Find(response, o).Some? && Find(response, o).value <= i by { FindSpec(response, o); }
    var i0 := Find(response, o).value;
    assert FindFrom(response, c, i0 + |o|).Some? by { FindFromSpec(response, c, i0 + |o|); }
  }

  lemma FoundIsMatch(response: string, tag: string)
    requires SearchForTag(response, tag).Some?
    ensures exists i, j :: TagMatch(response, tag, i, j)
  {
    var o := Opening(tag);
    var c := Closing(tag);
    FindSpec(response, o);
    var i0 := Find(response, o).value;
    FindFromSpec(response, c, i0 + |o|);
    var j0 := FindFrom(response, c, i0 + |o|).value;
    assert TagMatch(response, tag, i0, j0);
  }

  /** `re.search` semantics: the match that starts leftmost, ended by the nearest closing tag
      (the lazy `.*?`; DOTALL lets it cross newlines). */
  lemma {:induction false} SearchForTagIsLeftmostMatch(response: string, tag: string, i: int, j: int)
    requires TagMatch(response, tag, i, j)
    requires forall i', j' :: i' < i ==> !TagMatch(response, tag, i', j')
    requires forall j' :: j' < j ==> !TagMatch(response, tag, i, j')
    ensures SearchForTag(response, tag) == Some(response[i + |Opening(tag)|..j])
  {
    var o := Opening(tag);
    var c := Closing(tag);
    assert OccursAt(response, o, i);
    FindSpec(response, o);
    var i0 := Find(response, o).value;
    assert TagMatch(response, tag, i0, j);
    assert i0 == i;
    assert OccursAt(response, c, j);
    FindFromSpec(response, c, i + |o|);
    var j0 := FindFrom(response, c, i + |o|).value;
    assert TagMatch(response, tag, i, j0);
    assert j0 == j;
  }

  /** The extracted text never holds the closing tag, and tags plus text occur in the answer. */
  lemma SearchForTagFound(response: string, tag: string)
    requires SearchForTag(response, tag).Some?
    ensures var v := SearchForTag(response, tag).value;
      !Contains(v, Closing(tag)) && Contains(response, Opening(tag) + v + Closing(tag))
  {
    var o := Opening(tag);
    var c := Closing(tag);
    var i := Find(response, o).value;
    var j := FindFrom(response, c, i + |o|).value;
    assert OccursAt(response, o, i) by { FindSpec(response, o); }
    assert OccursAt(response, c, j) && forall k :: i + |o| <= k < j ==> !OccursAt(response, c, k) by {
      FindFromSpec(response, c, i + |o|);
    }
    NoEarlierClosing(response, c, i + |o|, j);
    Enclosed(response, o, c, i, j);
  }

  /** Between `a` and the first occurrence `j` at or after `a`, the slice holds no occurrence. */
  lemma NoEarlierClosing(s: string, c: string, a: nat, j: nat)
    requires |c| > 0 && a <= j && j + |c| <= |s|
    requires forall k :: a <= k < j ==> !OccursAt(s, c, k)
    ensures !Contains(s[a..j], c)
  {
    if Contains(s[a..j], c) {
      FindSpec(s[a..j], c);
      var k := Find(s[a..j], c).value;
      OccursInSlice(s, a, j, c, k);
    }
  }

  lemma Enclosed(s: string, o: string, c: string, i: nat, j: nat)
    requires OccursAt(s, o, i) && i + |o| <= j && OccursAt(s, c, j)
    ensures Contains(s, o + s[i + |o|..j] + c)
  {
    var v := s[i + |o|..j];
    assert s[i..j + |c|] == s[i..i + |o|] + s[i + |o|..j] + s[j..j + |c|];
    assert OccursAt(s, o + v + c, i);
    ContainsAt(s, o + v + c, i);
  }

  /** No `<` among the characters `s[from..to]` means no tag opens or closes there. */
  lemma NoTagStart(s: string, sub: string, from: int, to: int)
    requires 0 <= from <= to <= |s| && |sub| > 0 && sub[0] == '<' && '<' !in s[from..to]
    ensures forall k :: from <= k < to ==> !OccursAt(s, sub, k)
  {
    forall k | from <= k < to ensures !OccursAt(s, sub, k) {
      assert s[k] == s[from..to][k - from];
      NotOccursAt(s, sub, k);
    }
  }

  /** A well-formed answer gives its tagged text back: text before the tag and inside it that holds
      no '<' cannot hide another opening or closing tag. */
  lemma {:induction false} SearchForTagRendered(pre: string, tag: string, v: string, post: string)
    requires '<' !in pre && '<' !in v
    ensures SearchForTag(pre + Opening(tag) + v + Closing(tag) + post, tag) == Some(v)
  {
    var o := Opening(tag);
    var c := Closing(tag);
    var s := pre + o + v + c + post;
    var i := |pre|;
    var j := |pre| + |o| + |v|;
    assert s[..i] == pre && s[i..i + |o|] == o && s[i + |o|..j] == v && s[j..j + |c|] == c;
    NoTagStart(s, o, 0, i);
    NoTagStart(s, c, i + |o|, j);
    SearchForTagIsLeftmostMatch(s, tag, i, j);
  }

  /** Text in which each '<' is followed by a character other than the tag's first opens no `<tag>`. */
  lemma NoOpeningAmongTags(s: string, tag: string, pre: string)
    requires |tag| > 0 && |pre| <= |s| && s[..|pre|] == pre
    requires forall k :: 0 <= k < |pre| && pre[k] == '<' ==> k + 1 < |pre| && pre[k + 1] != tag[0]
    ensures forall k :: 0 <= k < |pre| ==> !OccursAt(s, Opening(tag), k)
  {
    var o := Opening(tag);
    forall k | 0 <= k < |pre| ensures !OccursAt(s, o, k) {
      assert s[k] == pre[k];
      if pre[k] == '<' {
        assert s[k + 1] == pre[k + 1];
        NotOccursAtOffset(s, o, k, 1);
      } else {
        NotOccursAt(s, o, k);
      }
    }
  }

  /** The same when the text before the tag holds other tags: each '<' in it is followed by a character
      other than the tag's first, so no opening tag of `tag` starts before the one written. */
  lemma {:induction false} SearchForTagAfter(pre: string, tag: string, v: string, post: string)
    requires |tag| > 0 && '<' !in v
    requires forall k :: 0 <= k < |pre| && pre[k] == '<' ==> k + 1 < |pre| && pre[k + 1] != tag[0]
    ensures SearchForTag(pre + Opening(tag) + v + Closing(tag) + post, tag) == Some(v)
  {
    var o := Opening(tag);
    var c := Closing(tag);
    var s := pre + o + v + c + post;
    var i := |pre|;
    var j := |pre| + |o| + |v|;
    assert s[..i] == pre && s[i..i + |o|] == o && s[i + |o|..j] == v && s[j..j + |c|] == c;
    NoOpeningAmongTags(s, tag, pre);
    NoTagStart(s, c, i + |o|, j);
    SearchForTagIsLeftmostMatch(s, tag, i, j);
  }

  /** A tag block `<t>v</t>`, with no '<' in `v`, has each '<' followed by the first letter of `t` or by '/'. */
  lemma TagBlockFollowers(t: string, v: string, x: char)
    requires |t| > 0 && '<' !in t && '<' !in v && x != t[0] && x != '/'
    ensures var b := Opening(t) + v + Closing(t);
      forall k :: 0 <= k < |b| && b[k] == '<' ==> k + 1 < |b| && b[k + 1] != x
  {
    var b := Opening(t) + v + Closing(t);
    var n := |Opening(t)|;
    forall k | 0 <= k < |b| && b[k] == '<' ensures k + 1 < |b| && b[k + 1] != x {
      if k == 0 {
        assert b[1] == t[0];
      } else if k >= n + |v| {
        assert b[k] == Closing(t)[k - n - |v|];
        assert k - n - |v| == 0;
        assert b[k + 1] == '/';
      }
    }
  }
}
