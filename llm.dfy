/**
 * The pure decisions around the LLM calls in llm.py: walking a decoded JSON response along a
 * path of keys, the user prompt, the provider lookup with prompt truncation, and the endpoint
 * check that guards against server-side request forgery. HTTP, JSON decoding, URL parsing and
 * name resolution are not modelled: their results come in as parameters.
 */
module Llm {
  import opened Text
  import opened LineDiff

  // ---------------------------------------------------------------------------
  // `_extract_response` (llm.py:84-98)
  // ---------------------------------------------------------------------------

  /** A decoded JSON value (numbers restricted to integers). */
  datatype Json =
    | JNull
    | JBool(b: bool)
    | JNum(n: int)
    | JStr(s: string)
    | JArr(items: seq<Json>)
    | JObj(fields: map<string, Json>)

  /** One step of a response path: an object key or a list index. */
  datatype Key = Field(name: string) | Index(i: int)

  /**
   * What the walk ends in: the value reached, the `ValueError` the guards raise, or the
   * `IndexError` Python's own list indexing raises for an index below `-len`.
   */
  datatype Extracted = Found(value: Json) | Unexpected | IndexError

  /** One step of the walk from `current` along `key`. */
  function Step(current: Json, key: Key): Extracted {
    match current
    case JArr(items) =>
      (match key
       case Index(i) =>
         if i >= |items| then Unexpected
         else if i < -|items| then IndexError
         else Found(items[if i < 0 then |items| + i else i])
       case Field(_) => Unexpected)
    case JObj(fields) =>
      (match key
       case Field(name) => if name in fields then Found(fields[name]) else Unexpected
       case Index(_) => Unexpected)
    case _ => Unexpected
  }

  /** The walk along a whole path: step by step, stopping at the first failure. */
  function Walk(current: Json, path: seq<Key>): Extracted
    decreases |path|
  {
    if |path| == 0 then Found(current)
    else
      match Step(current, path[0])
      case Found(next) => Walk(next, path[1..])
      case failure => failure
  }

  /** `_extract_response`: reassign `current` once per key, failing as soon as a step does. */
  method ExtractResponse(data: Json, keys: seq<Key>) returns (r: Extracted)
    ensures r == Walk(data, keys)
  {
    var current := data;
    for n := 0 to |keys|
      invariant Walk(data, keys) == Walk(current, keys[n..])
    {
      assert keys[n..][1..] == keys[n + 1..];
      var step := Step(current, keys[n]);
      if !step.Found? {
        return step;
      }
      current := step.value;
    }
    r := Found(current);
  }

  /** Walking `p + q` is walking `p`, then walking `q` from where `p` ended. */
  lemma {:induction false} WalkAppend(data: Json, p: seq<Key>, q: seq<Key>)
    ensures Walk(data, p + q) == match Walk(data, p) case Found(v) => Walk(v, q) case failure => failure
    decreases |p|
  {
    if |p| == 0 {
      assert p + q == q;
    } else {
      assert (p + q)[0] == p[0] && (p + q)[1..] == p[1..] + q;
      match Step(data, p[0])
      case Found(next) => WalkAppend(next, p[1..], q);
      case _ =>
    }
  }

  /** Each way a single step fails, and what a step into a list or an object reaches. */
  lemma {:induction false} StepCases(current: Json, key: Key)
    ensures !current.JArr? && !current.JObj? ==> Step(current, key) == Unexpected
    ensures current.JObj? && key.Field? ==>
      Step(current, key) == (if key.name in current.fields then Found(current.fields[key.name]) else Unexpected)
    ensures current.JArr? && key.Index? ==> var n := |current.items|;
      && (Step(current, key) == Unexpected <==> key.i >= n)
      && (Step(current, key) == IndexError <==> key.i < -n)
      && (0 <= key.i < n ==> Step(current, key) == Found(current.items[key.i]))
      && (-n <= key.i < 0 ==> Step(current, key) == Found(current.items[n + key.i]))
    ensures (current.JArr? && key.Field?) || (current.JObj? && key.Index?) ==> Step(current, key) == Unexpected
  {
  }

  /**
   * A walk fails exactly when some prefix of the path walks to a value that cannot take the
   * next step; the failure is that step's.
   */
  lemma {:induction false} WalkFails(data: Json, path: seq<Key>)
    ensures !Walk(data, path).Found? ==>
      exists k :: 0 <= k < |path| && Walk(data, path[..k]).Found?
        && Step(Walk(data, path[..k]).value, path[k]) == Walk(data, path)
    decreases |path|
  {
    if |path| > 0 && !Walk(data, path).Found? {
      assert path[..0] == [];
      match Step(data, path[0])
      case Found(next) =>
        WalkFails(next, path[1..]);
        var k :| 0 <= k < |path[1..]| && Walk(next, path[1..][..k]).Found?
                 && Step(Walk(next, path[1..][..k]).value, path[1..][k]) == Walk(next, path[1..]);
        assert path[..k + 1][0] == path[0] && path[..k + 1][1..] == path[1..][..k];
        assert Walk(data, path[..k + 1]) == Walk(next, path[1..][..k]);
      case _ =>
    }
  }

  /** The response the tests decode: `{"choices": [{"message": {"content": "Hello"}}]}`. */
  function ChatResponse(): Json {
    JObj(map["choices" := JArr([JObj(map["message" := JObj(map["content" := JStr("Hello")])])])])
  }

  /** Following `choices, 0, message, content` reaches `"Hello"`; an error body has no `choices`. */
  lemma {:induction false} ExtractExamples()
    ensures Walk(ChatResponse(), [Field("choices"), Index(0), Field("message"), Field("content")])
            == Found(JStr("Hello"))
    ensures Walk(JObj(map["error" := JStr("Something went wrong")]), [Field("choices"), Index(0)])
            == Unexpected
    ensures Walk(ChatResponse(), []) == Found(ChatResponse())
  {
    var path := [Field("choices"), Index(0), Field("message"), Field("content")];
    assert path[1..] == [Index(0), Field("message"), Field("content")];
    assert path[1..][1..] == [Field("message"), Field("content")];
    assert path[1..][1..][1..] == [Field("content")];
  }

  // ---------------------------------------------------------------------------
  // `_build_user_prompt` (llm.py:140-156)
  // ---------------------------------------------------------------------------

  /** `t` occurs in `s` starting at position `i`. */
  predicate At(s: string, t: string, i: nat) {
    i + |t| <= |s| && s[i..i + |t|] == t
  }

  /** One line of the statistics section: `- <kind> lines: <count>`. */
  function StatLine(kind: string, count: nat): string {
    "- " + kind + " lines: " + NatToString(count) + "\n"
  }

  function DocumentsSection(nameA: string, nameB: string): string {
    "## Documents\n- **Document A:** " + nameA + "\n- **Document B:** " + nameB + "\n\n"
  }

  /** The four counts, one line each, in the order equal, insert, delete, replace. */
  function StatLines(stats: Stats): string {
    StatLine("Unchanged", stats.equal) + StatLine("Inserted", stats.insert)
    + StatLine("Deleted", stats.delete) + StatLine("Modified", stats.replace)
  }

  function StatsSection(stats: Stats): string {
    "## Change Statistics\n" + StatLines(stats) + "\n"
  }

  function DiffSection(diff: string): string {
    "## Unified Diff\n" + "```\n" + diff + "\n```\n"
  }

  /** `_build_user_prompt`: the documents, the change statistics, then the fenced diff. */
  function UserPrompt(diff: string, stats: Stats, nameA: string, nameB: string): string {
    DocumentsSection(nameA, nameB) + StatsSection(stats) + DiffSection(diff)
  }

  lemma {:induction false} AtAppend(s: string, t: string, i: nat, after: string)
    requires At(s, t, i)
    ensures At(s + after, t, i)
  {
    assert (s + after)[i..i + |t|] == s[i..i + |t|];
  }

  /** Where each of five concatenated parts sits. */
  lemma {:induction false} AtFive(a: string, b: string, c: string, d: string, e: string)
    ensures var s := a + b + c + d + e;
      && At(s, a, 0) && At(s, b, |a|) && At(s, c, |a| + |b|) && At(s, d, |a| + |b| + |c|)
      && At(s, e, |a| + |b| + |c| + |d|)
  {
    var s := a + b + c + d + e;
    assert s[0..|a|] == a;
    assert s[|a|..|a| + |b|] == b;
    assert s[|a| + |b|..|a| + |b| + |c|] == c;
    assert s[|a| + |b| + |c|..|a| + |b| + |c| + |d|] == d;
    assert s[|a| + |b| + |c| + |d|..|a| + |b| + |c| + |d| + |e|] == e;
  }

  /** Document A's name follows its label at position 31, document B's 19 characters after it. */
  lemma {:induction false} PromptNames(diff: string, stats: Stats, nameA: string, nameB: string)
    ensures var p := UserPrompt(diff, stats, nameA, nameB);
      && At(p, "## Documents\n- **Document A:** ", 0)
      && At(p, nameA, 31)
      && At(p, "\n- **Document B:** ", 31 + |nameA|)
      && At(p, nameB, 50 + |nameA|)
  {
    hide *;
    var headA, headB := "## Documents\n- **Document A:** ", "\n- **Document B:** ";
    assert |headA| == 31 && |headB| == 19;
    var d := DocumentsSection(nameA, nameB);
    var ds := d + StatsSection(stats);
    DocumentsParts(nameA, nameB);
    PromptParts(diff, stats, nameA, nameB);
    AtFive(headA, nameA, headB, nameB, "\n\n");
    AtAppend(d, headA, 0, StatsSection(stats));
    AtAppend(d, nameA, 31, StatsSection(stats));
    AtAppend(d, headB, 31 + |nameA|, StatsSection(stats));
    AtAppend(d, nameB, 50 + |nameA|, StatsSection(stats));
    AtAppend(ds, headA, 0, DiffSection(diff));
    AtAppend(ds, nameA, 31, DiffSection(diff));
    AtAppend(ds, headB, 31 + |nameA|, DiffSection(diff));
    AtAppend(ds, nameB, 50 + |nameA|, DiffSection(diff));
  }

  /** The documents section is its two labels, the two names, and a blank line. */
  lemma {:induction false} DocumentsParts(nameA: string, nameB: string)
    ensures DocumentsSection(nameA, nameB)
            == "## Documents\n- **Document A:** " + nameA + "\n- **Document B:** " + nameB + "\n\n"
  {
  }

  /**
   * The four statistics lines come one right after the other, in the order unchanged, inserted,
   * deleted, modified, starting 23 characters after document B's name.
   */
  lemma {:induction false} PromptStats(diff: string, stats: Stats, nameA: string, nameB: string)
    ensures At(UserPrompt(diff, stats, nameA, nameB),
               StatLine("Unchanged", stats.equal) + StatLine("Inserted", stats.insert)
               + StatLine("Deleted", stats.delete) + StatLine("Modified", stats.replace),
               73 + |nameA| + |nameB|)
  {
    StatLinesAt(diff, stats, nameA, nameB);
  }

  lemma {:induction false} StatLinesAt(diff: string, stats: Stats, nameA: string, nameB: string)
    ensures At(UserPrompt(diff, stats, nameA, nameB), StatLines(stats), 73 + |nameA| + |nameB|)
  {
    hide *;
    DocumentsLength(nameA, nameB);
    StatLinesInSection(stats);
    PromptParts(diff, stats, nameA, nameB);
    AtShift(DocumentsSection(nameA, nameB), StatsSection(stats), StatLines(stats), 21, DiffSection(diff),
            UserPrompt(diff, stats, nameA, nameB), 73 + |nameA| + |nameB|);
  }

  /** The prompt is its three sections in order. */
  lemma {:induction false} PromptParts(diff: string, stats: Stats, nameA: string, nameB: string)
    ensures UserPrompt(diff, stats, nameA, nameB) == DocumentsSection(nameA, nameB) + StatsSection(stats) + DiffSection(diff)
  {
  }

  /** The statistics lines start right after the 21-character section heading. */
  lemma {:induction false} StatLinesInSection(stats: Stats)
    ensures At(StatsSection(stats), StatLines(stats), 21)
  {
    var head := "## Change Statistics\n";
    assert |head| == 21;
    AtMiddle(head, StatLines(stats), "\n");
  }

  lemma {:induction false} DocumentsLength(nameA: string, nameB: string)
    ensures |DocumentsSection(nameA, nameB)| == 52 + |nameA| + |nameB|
  {
    var headA, headB := "## Documents\n- **Document A:** ", "\n- **Document B:** ";
    assert |headA| == 31 && |headB| == 19 && |"\n\n"| == 2;
  }

  /** The middle of three concatenated parts starts right after the first. */
  lemma {:induction false} AtMiddle(a: string, b: string, c: string)
    ensures At(a + b + c, b, |a|)
  {
    assert (a + b + c)[|a|..|a| + |b|] == b;
  }

  /** A part found in `s` is found in `pre + s + post`, shifted by the length of `pre`. */
  lemma {:induction false} AtShift(pre: string, s: string, t: string, i: nat, post: string, whole: string, j: nat)
    requires At(s, t, i) && whole == pre + s + post && j == |pre| + i
    ensures At(whole, t, j)
  {
    assert whole[j..j + |t|] == s[i..i + |t|];
  }

  /** The diff sits verbatim at the end of the prompt, between a "```" line and a closing "```". */
  lemma {:induction false} PromptFence(diff: string, stats: Stats, nameA: string, nameB: string)
    ensures var p := UserPrompt(diff, stats, nameA, nameB);
      && |p| >= |diff| + 9
      && At(p, "```\n", |p| - |diff| - 9)
      && At(p, diff, |p| - |diff| - 5)
      && p[|p| - 5..] == "\n```\n"
  {
    hide *;
    PromptParts(diff, stats, nameA, nameB);
    FenceParts(DocumentsSection(nameA, nameB) + StatsSection(stats), diff);
  }

  lemma {:induction false} FenceParts(front: string, diff: string)
    ensures var p := front + DiffSection(diff);
      && |p| >= |diff| + 9
      && At(p, "```\n", |p| - |diff| - 9)
      && At(p, diff, |p| - |diff| - 5)
      && p[|p| - 5..] == "\n```\n"
  {
    var open, close := "```\n", "\n```\n";
    assert |open| == 4 && |close| == 5;
    var p := front + DiffSection(diff);
    assert p == front + "## Unified Diff\n" + open + diff + close;
    AtFive(front, "## Unified Diff\n", open, diff, close);
    assert p[|p| - 5..] == p[|p| - 5..|p|];
  }

  // ---------------------------------------------------------------------------
  // Provider lookup and prompt truncation in `generate_llm_report` (llm.py:311-323)
  // ---------------------------------------------------------------------------

  datatype Provider = Ollama | OpenAI | Gemini | LMStudio

  /** The key of each provider in the `_PROVIDERS` table. */
  function ProviderName(p: Provider): string {
    match p
    case Ollama => "ollama"
    case OpenAI => "openai"
    case Gemini => "gemini"
    case LMStudio => "lmstudio"
  }

  /** `_PROVIDERS.get(provider)`: exact, case-sensitive lookup. */
  function ProviderNamed(name: string): Option<Provider> {
    if name == "ollama" then Some(Ollama)
    else if name == "openai" then Some(OpenAI)
    else if name == "gemini" then Some(Gemini)
    else if name == "lmstudio" then Some(LMStudio)
    else None
  }

  /** The lookup knows exactly the four table keys, and each key names its own provider. */
  lemma {:induction false} ProviderLookup(name: string)
    ensures ProviderNamed(name).Some? <==> name in {"ollama", "openai", "gemini", "lmstudio"}
    ensures ProviderNamed(name).Some? ==> ProviderName(ProviderNamed(name).value) == name
  {
  }

  lemma {:induction false} ProviderNameRoundTrip(p: Provider)
    ensures ProviderNamed(ProviderName(p)) == Some(p)
  {
  }

  /** The path each provider's response is walked along (llm.py:185, 212, 240, 271). */
  function ResponsePath(p: Provider): seq<Key> {
    match p
    case Ollama => [Field("message"), Field("content")]
    case OpenAI => [Field("choices"), Index(0), Field("message"), Field("content")]
    case Gemini => [Field("candidates"), Index(0), Field("content"), Field("parts"), Index(0), Field("text")]
    case LMStudio => [Field("choices"), Index(0), Field("message"), Field("content")]
  }

  const MaxPromptChars: nat := 80000

  const TruncationNote: string := "\n\n[... diff truncated for length ...]\n"

  /** A prompt longer than 80,000 characters keeps its first 80,000 and gets the note appended. */
  function Truncated(prompt: string): (r: string)
    ensures |prompt| <= MaxPromptChars ==> r == prompt
    ensures |prompt| > MaxPromptChars ==>
      |r| == MaxPromptChars + |TruncationNote| && r[..MaxPromptChars] == prompt[..MaxPromptChars]
      && r[MaxPromptChars..] == TruncationNote
    ensures |r| <= MaxPromptChars + |TruncationNote|
  {
    if |prompt| > MaxPromptChars then prompt[..MaxPromptChars] + TruncationNote else prompt
  }

  /** What `generate_llm_report` hands to the provider call, or the unknown-provider error. */
  datatype Prepared = UnknownProvider(name: string) | Send(provider: Provider, prompt: string)

  /**
   * `generate_llm_report` up to the provider call: look the provider up (an unknown name fails
   * at once), build the user prompt, and cut it down when it is too long.
   */
  method PrepareLlmRequest(provider: string, diff: string, stats: Stats, nameA: string, nameB: string)
    returns (r: Prepared)
    ensures r.UnknownProvider? <==> provider !in {"ollama", "openai", "gemini", "lmstudio"}
    ensures r.UnknownProvider? ==> r == UnknownProvider(provider)
    ensures r.Send? ==> ProviderName(r.provider) == provider
    ensures r.Send? ==> r.prompt == Truncated(UserPrompt(diff, stats, nameA, nameB))
  {
    var call := ProviderNamed(provider);
    ProviderLookup(provider);
    if call.None? {
      return UnknownProvider(provider);
    }
    var prompt := UserPrompt(diff, stats, nameA, nameB);
    if |prompt| > MaxPromptChars {
      prompt := prompt[..MaxPromptChars] + TruncationNote;
    }
    r := Send(call.value, prompt);
  }

  /** A prompt within the limit reaches the provider whole, with its fenced diff intact. */
  lemma {:induction false} ShortPromptSentWhole(diff: string, stats: Stats, nameA: string, nameB: string)
    requires |UserPrompt(diff, stats, nameA, nameB)| <= MaxPromptChars
    ensures var sent := Truncated(UserPrompt(diff, stats, nameA, nameB));
      At(sent, diff, |sent| - |diff| - 5)
  {
    PromptFence(diff, stats, nameA, nameB);
  }

  /** The OpenAI and LM Studio response path reaches the reply in the tests' response. */
  lemma {:induction false} OpenAIPathExample()
    ensures Walk(ChatResponse(), ResponsePath(OpenAI)) == Found(JStr("Hello"))
    ensures ResponsePath(LMStudio) == ResponsePath(OpenAI)
  {
    ExtractExamples();
  }

  // ---------------------------------------------------------------------------
  // `_validate_endpoint` (llm.py:101-133)
  // ---------------------------------------------------------------------------

  /** The parts of `urlparse(url)` the check reads. */
  datatype ParsedUrl = ParsedUrl(scheme: string, hostname: Option<string>, port: Option<nat>, fragment: string)

  /** How `ipaddress` classifies one resolved address. */
  datatype AddressKind = AddressKind(reserved: bool, linkLocal: bool, private: bool, loopback: bool)

  /** The result of `getaddrinfo`: a failure, or the addresses it returned. */
  datatype Resolution = ResolveFailed | Resolved(addresses: seq<AddressKind>)

  /** The check's outcome: accepted, or the `ValueError` it raises. */
  datatype Verdict =
    | Accepted
    | FragmentRejected
    | SchemeRejected(scheme: string)
    | AddressRejected
    | Unresolvable(hostname: string)

  const BlockedHosts: set<string> := {"169.254.169.254", "metadata.google.internal", "100.100.100.200"}

  /** `parsed.hostname or ""` */
  function HostOf(url: ParsedUrl): string {
    if url.hostname.Some? then url.hostname.value else ""
  }

  /** `parsed.port or 443`: a missing port and port 0 both become 443. */
  function PortOf(url: ParsedUrl): nat {
    if url.port.Some? && url.port.value != 0 then url.port.value else 443
  }

  /** The checks made on the URL alone, before any name resolution, in the source's order. */
  function PreCheck(url: ParsedUrl): Option<Verdict> {
    if url.fragment != "" then Some(FragmentRejected)
    else if url.scheme !in {"http", "https"} then Some(SchemeRejected(url.scheme))
    else
      var host := HostOf(url);
      if host in BlockedHosts then Some(AddressRejected)
      else if StartsWith(host, "0") || host == "[::]" then Some(AddressRejected)
      else None
  }

  /** One resolved address passes: never reserved or link-local; private or loopback only when local is allowed. */
  predicate AddressAllowed(a: AddressKind, allowLocal: bool) {
    !(a.reserved || a.linkLocal) && (allowLocal || !(a.private || a.loopback))
  }

  /** `_validate_endpoint` as a value, with name resolution a parameter. */
  function Validate(url: ParsedUrl, resolve: (string, nat) -> Resolution, allowLocal: bool): Verdict {
    match PreCheck(url)
    case Some(rejection) => rejection
    case None =>
      match resolve(HostOf(url), PortOf(url))
      case ResolveFailed => Unresolvable(HostOf(url))
      case Resolved(addresses) =>
        if forall k :: 0 <= k < |addresses| ==> AddressAllowed(addresses[k], allowLocal) then Accepted
        else AddressRejected
  }

  /** `_validate_endpoint`: the guards, then one pass over the resolved addresses. */
  method ValidateEndpoint(url: ParsedUrl, resolve: (string, nat) -> Resolution, allowLocal: bool)
    returns (v: Verdict)
    ensures v == Validate(url, resolve, allowLocal)
  {
    if url.fragment != "" {
      return FragmentRejected;
    }
    if url.scheme !in {"http", "https"} {
      return SchemeRejected(url.scheme);
    }
    var hostname := HostOf(url);
    if hostname in BlockedHosts {
      return AddressRejected;
    }
    if StartsWith(hostname, "0") || hostname == "[::]" {
      return AddressRejected;
    }
    var infos := resolve(hostname, PortOf(url));
    if infos.ResolveFailed? {
      return Unresolvable(hostname);
    }
    var addresses := infos.addresses;
    for k := 0 to |addresses|
      invariant forall j :: 0 <= j < k ==> AddressAllowed(addresses[j], allowLocal)
    {
      var ip := addresses[k];
      if ip.reserved || ip.linkLocal {
        return AddressRejected;
      }
      if !allowLocal && (ip.private || ip.loopback) {
        return AddressRejected;
      }
    }
    v := Accepted;
  }

  /**
   * The URL-only checks come first: when one of them rejects, the verdict is that rejection
   * whatever the resolver would have answered.
   */
  lemma {:induction false} PreChecksFirst(url: ParsedUrl, resolve1: (string, nat) -> Resolution,
                       resolve2: (string, nat) -> Resolution, allowLocal: bool)
    requires PreCheck(url).Some?
    ensures Validate(url, resolve1, allowLocal) == PreCheck(url).value == Validate(url, resolve2, allowLocal)
  {
  }

  /** Exactly which endpoints are accepted. */
  lemma {:induction false} AcceptedIff(url: ParsedUrl, resolve: (string, nat) -> Resolution, allowLocal: bool)
    ensures Validate(url, resolve, allowLocal) == Accepted <==>
      && url.fragment == ""
      && (url.scheme == "http" || url.scheme == "https")
      && HostOf(url) !in BlockedHosts
      && !(|HostOf(url)| > 0 && HostOf(url)[0] == '0')
      && HostOf(url) != "[::]"
      && resolve(HostOf(url), PortOf(url)).Resolved?
      && forall a :: a in resolve(HostOf(url), PortOf(url)).addresses ==>
           !a.reserved && !a.linkLocal && (allowLocal || (!a.private && !a.loopback))
  {
    var host := HostOf(url);
    assert StartsWith(host, "0") <==> |host| > 0 && host[0] == '0' by {
      if |host| > 0 {
        assert host[..1] == [host[0]];
      }
    }
  }

  /** Allowing local addresses only ever turns a rejection into an acceptance, never back. */
  lemma {:induction false} AllowLocalOnlyWidens(url: ParsedUrl, resolve: (string, nat) -> Resolution)
    ensures Validate(url, resolve, false) == Accepted ==> Validate(url, resolve, true) == Accepted
    ensures Validate(url, resolve, true) != Accepted ==> Validate(url, resolve, false) == Validate(url, resolve, true)
  {
  }

  /** A reserved or link-local address among the resolved ones is rejected even for local providers. */
  lemma {:induction false} LinkLocalAlwaysRejected(url: ParsedUrl, resolve: (string, nat) -> Resolution, allowLocal: bool, a: AddressKind)
    requires PreCheck(url).None?
    requires resolve(HostOf(url), PortOf(url)).Resolved? && a in resolve(HostOf(url), PortOf(url)).addresses
    requires a.reserved || a.linkLocal
    ensures Validate(url, resolve, allowLocal) == AddressRejected
  {
    var addresses := resolve(HostOf(url), PortOf(url)).addresses;
    var k :| 0 <= k < |addresses| && addresses[k] == a;
    assert !AddressAllowed(addresses[k], allowLocal);
  }

  /** The rejections the tests expect: schemes other than http(s), and the metadata hosts. */
  lemma {:induction false} EndpointExamples(resolve: (string, nat) -> Resolution, allowLocal: bool)
    ensures Validate(ParsedUrl("ftp", Some("example.com"), None, ""), resolve, allowLocal) == SchemeRejected("ftp")
    ensures Validate(ParsedUrl("file", None, None, ""), resolve, allowLocal) == SchemeRejected("file")
    ensures Validate(ParsedUrl("http", Some("169.254.169.254"), None, ""), resolve, allowLocal) == AddressRejected
    ensures Validate(ParsedUrl("http", Some("metadata.google.internal"), None, ""), resolve, allowLocal)
            == AddressRejected
  {
  }

  /**
   * A local provider's endpoint: a name that resolves to a loopback address is accepted when
   * local addresses are allowed and rejected otherwise.
   */
  lemma {:induction false} LocalEndpointExample(url: ParsedUrl, resolve: (string, nat) -> Resolution)
    requires url == ParsedUrl("http", Some("localhost"), Some(11434), "")
    requires resolve("localhost", 11434) == Resolved([AddressKind(false, false, false, true)])
    ensures Validate(url, resolve, true) == Accepted
    ensures Validate(url, resolve, false) == AddressRejected
  {
    assert HostOf(url) == "localhost" && PortOf(url) == 11434;
    assert HostOf(url)[0] == 'l';
    assert !StartsWith(HostOf(url), "0");
    assert HostOf(url) != "[::]" && HostOf(url) !in BlockedHosts;
    assert PreCheck(url) == None;
    var addresses := resolve(HostOf(url), PortOf(url)).addresses;
    assert |addresses| == 1 && addresses[0] == AddressKind(false, false, false, true);
    assert !AddressAllowed(addresses[0], false);
  }
}
