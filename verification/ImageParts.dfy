/**
 From a client's `image_url` to three provider wires: how
 internal/httpapi/chatcompletions.go takes a data URL apart, and how
 internal/execution puts the parts on the OpenAI, Gemini and Anthropic wires.
 */
module ImageParts {
  import opened Wrappers

  /** Every failure here is the same typed refusal. */
  datatype Outcome<+T> = Ok(value: T) | Unsupported

  // ----- data URLs (section 3 of RFC 2397) ----------------------------------------------

  datatype DataUrl = DataUrl(mediaType: string, base64: string)

  const SCHEME := "data:"
  const MARK := ";base64,"

  /** `strings.Index`. */
  function Index(s: string, mark: string): (r: Option<nat>)
    ensures r.Some? ==> r.value + |mark| <= |s| && s[r.value..r.value + |mark|] == mark
  {
    if mark <= s then Some(0)
    else if s == "" then None
    else
      var rest := Index(s[1..], mark);
      if rest.None? then None
      else
        assert s[1..][rest.value..rest.value + |mark|] == s[rest.value + 1..rest.value + 1 + |mark|];
        Some(rest.value + 1)
  }

  function Parsed(url: string): Option<DataUrl> {
    if !(SCHEME <= url) then None
    else
      var rest := url[|SCHEME|..];
      var semi := Index(rest, MARK);
      if semi.None? then None else Some(DataUrl(rest[..semi.value], rest[semi.value + |MARK|..]))
  }

  function Url(d: DataUrl): string { SCHEME + d.mediaType + MARK + d.base64 }

  /** Taking a URL apart loses nothing. */
  lemma ParsedUrlRebuilds(url: string)
    requires Parsed(url).Some?
    ensures Url(Parsed(url).value) == url
  {
    var rest := url[|SCHEME|..];
    var semi := Index(rest, MARK).value;
    CutTwice(rest, semi, semi + |MARK|);
    Assembled(rest[..semi], MARK, rest[semi + |MARK|..]);
    assert url == SCHEME + rest;
  }

  lemma CutTwice(s: string, i: nat, j: nat)
    requires i <= j <= |s|
    ensures s == s[..i] + s[i..j] + s[j..]
  {
  }

  lemma Assembled(media: string, mark: string, data: string)
    ensures SCHEME + media + mark + data == SCHEME + (media + mark + data)
  {
  }

  /** Such a mark cannot overlap itself. */
  predicate StartsOnce(mark: string) { mark != "" && forall k | 0 < k < |mark| :: mark[k] != mark[0] }

  lemma MarkDoesNotStraddle(before: string, mark: string, tail: string)
    requires StartsOnce(mark) && mark <= tail && before != ""
    ensures mark <= before + tail <==> mark <= before
  {
    var s := before + tail;
    assert s[|before|] == tail[0] == mark[0] && s[..|before|] == before;
  }

  /** So it is first found where it was put, unless it occurs before. */
  lemma {:induction false} MarkIsFoundWherePut(before: string, mark: string, tail: string)
    requires StartsOnce(mark) && mark <= tail
    ensures Index(before + tail, mark) == if Index(before, mark).None? then Some(|before|) else Index(before, mark)
  {
    if before == "" {
      assert before + tail == tail;
    } else {
      MarkDoesNotStraddle(before, mark, tail);
      MarkIsFoundWherePut(before[1..], mark, tail);
      assert (before + tail)[1..] == before[1..] + tail;
      IndexSteps(before, mark);
      IndexSteps(before + tail, mark);
    }
  }

  lemma IndexSteps(s: string, mark: string)
    requires s != "" && mark != ""
    ensures Index(s, mark) ==
            if mark <= s then Some(0)
            else if Index(s[1..], mark).None? then None
            else Some(Index(s[1..], mark).value + 1)
  {
  }

  /** Building and taking apart again gives the same parts exactly when the media type does not contain the mark. */
  lemma BuiltUrlParsesBackExactly(d: DataUrl)
    ensures Parsed(Url(d)) == Some(d) <==> Index(d.mediaType, MARK).None?
  {
    var tail := MARK + d.base64;
    var rest := d.mediaType + tail;
    assert Url(d)[|SCHEME|..] == rest;
    assert StartsOnce(MARK) && MARK <= tail;
    MarkIsFoundWherePut(d.mediaType, MARK, tail);
    if Index(d.mediaType, MARK).None? {
      assert rest[..|d.mediaType|] == d.mediaType && rest[|d.mediaType| + |MARK|..] == d.base64;
    }
  }

  // ----- what the client sent --------------------------------------------------------------

  /** One element of the array form; `url` is absent when `image_url` is null. */
  datatype PartIn = PartIn(kind: string, text: string, url: Option<string>)

  /** A message's content, decoded. */
  datatype Body = Absent | Plain(text: string) | Array(parts: seq<PartIn>) | Malformed

  datatype ClientMessage = ClientMessage(role: string, body: Body)

  datatype Kind = TextKind | ImageKind | OtherKind(name: string)

  datatype Part = Part(kind: Kind, text: string, url: string, base64: string, mediaType: string)

  datatype Message = Message(role: string, content: string, parts: seq<Part>)

  /** What a reader of a message sees, part by part. */
  datatype Item = TextItem(text: string) | UrlItem(url: string)

  /** Unknown kinds and images without a URL are skipped. */
  function ItemOf(p: PartIn): Option<Item> {
    if p.kind == "text" then Some(TextItem(p.text))
    else if p.kind == "image_url" && p.url.Some? then Some(UrlItem(p.url.value))
    else None
  }

  function Items(parts: seq<PartIn>): seq<Item> {
    if parts == [] then []
    else
      var item := ItemOf(parts[|parts| - 1]);
      Items(parts[..|parts| - 1]) + if item.Some? then [item.value] else []
  }

  function Normal(i: Item): Part {
    match i
    case TextItem(text) => Part(TextKind, text, "", "", "")
    case UrlItem(url) =>
      var d := Parsed(url);
      if d.Some? then Part(ImageKind, "", "", d.value.base64, d.value.mediaType) else Part(ImageKind, "", url, "", "")
  }

  function Normals(items: seq<Item>): (r: seq<Part>)
    ensures |r| == |items| && forall i | 0 <= i < |items| :: r[i] == Normal(items[i])
  {
    seq(|items|, i requires 0 <= i < |items| => Normal(items[i]))
  }

  ghost predicate HasImage(items: seq<Item>) { exists i :: 0 <= i < |items| && items[i].UrlItem? }

  lemma HasImageAppends(items: seq<Item>, i: Item)
    ensures HasImage(items + [i]) == (HasImage(items) || i.UrlItem?)
  {
    var all := items + [i];
    assert all[|items|] == i;
    if HasImage(items) {
      var k :| 0 <= k < |items| && items[k].UrlItem?;
      assert all[k].UrlItem?;
    }
  }

  method ParseMessageContent(body: Body) returns (ok: bool, parts: seq<Part>, plain: string, hasImage: bool)
    ensures ok == !body.Malformed?
    ensures parts == if body.Array? then Normals(Items(body.parts)) else []
    ensures plain == if body.Plain? then body.text else ""
    ensures hasImage <==> body.Array? && HasImage(Items(body.parts))
  {
    ok, parts, plain, hasImage := true, [], "", false;
    match body {
      case Absent =>
      case Plain(text) => plain := text;
      case Malformed => ok := false;
      case Array(arr) =>
        for k := 0 to |arr|
          invariant parts == Normals(Items(arr[..k]))
          invariant hasImage == HasImage(Items(arr[..k]))
        {
          var part := arr[k];
          ghost var before := Items(arr[..k]);
          assert arr[..k + 1][..k] == arr[..k];
          if part.kind == "text" {
            parts := parts + [Part(TextKind, part.text, "", "", "")];
            assert Items(arr[..k + 1]) == before + [TextItem(part.text)];
            HasImageAppends(before, TextItem(part.text));
          } else if part.kind == "image_url" {
            if part.url.None? { continue; }
            var d := Parsed(part.url.value);
            if d.Some? {
              parts := parts + [Part(ImageKind, "", "", d.value.base64, d.value.mediaType)];
            } else {
              parts := parts + [Part(ImageKind, "", part.url.value, "", "")];
            }
            hasImage := true;
            assert Items(arr[..k + 1]) == before + [UrlItem(part.url.value)];
            HasImageAppends(before, UrlItem(part.url.value));
          }
        }
        assert arr[..|arr|] == arr;
    }
  }

  function Normalized(m: ClientMessage): Message {
    match m.body
    case Array(arr) => Message(m.role, "", Normals(Items(arr)))
    case Plain(text) => Message(m.role, text, [])
    case _ => Message(m.role, "", [])
  }

  function AllNormalized(ms: seq<ClientMessage>): (r: seq<Message>)
    ensures |r| == |ms| && forall i | 0 <= i < |ms| :: r[i] == Normalized(ms[i])
  {
    seq(|ms|, i requires 0 <= i < |ms| => Normalized(ms[i]))
  }

  ghost predicate WellFormed(ms: seq<ClientMessage>) { forall i | 0 <= i < |ms| :: !ms[i].body.Malformed? }

  method BuildContent(ms: seq<ClientMessage>) returns (r: Outcome<seq<Message>>)
    ensures r.Ok? <==> WellFormed(ms)
    ensures r.Ok? ==> r.value == AllNormalized(ms)
  {
    var out: seq<Message> := [];
    for i := 0 to |ms|
      invariant WellFormed(ms[..i]) && out == AllNormalized(ms[..i])
    {
      var ok, parts, plain, hasImage := ParseMessageContent(ms[i].body);
      if !ok {
        return Unsupported;
      }
      out := out + [if |parts| > 0 then Message(ms[i].role, "", parts) else Message(ms[i].role, plain, [])];
    }
    assert ms[..|ms|] == ms;
    r := Ok(out);
  }

  // ----- the wires ----------------------------------------------------------------------------

  datatype WirePart = WireText(text: string) | WireUrl(url: string) | WireInline(mediaType: string, data: string)

  datatype WireMessage = WirePlain(role: string, text: string) | WireParts(role: string, parts: seq<WirePart>)

  /** How a wire carries images: by URL, or inline only. */
  datatype Codec = ByUrl | Inline

  function ImageUrlFor(p: Part): Outcome<string> {
    if p.url != "" then Ok(p.url)
    else if p.base64 != "" && p.mediaType != "" then Ok(SCHEME + p.mediaType + MARK + p.base64)
    else Unsupported
  }

  function WirePartFor(c: Codec, p: Part): Outcome<WirePart> {
    match p.kind
    case TextKind => Ok(WireText(p.text))
    case OtherKind(_) => Unsupported
    case ImageKind =>
      if c == ByUrl then (if ImageUrlFor(p).Ok? then Ok(WireUrl(ImageUrlFor(p).value)) else Unsupported)
      else if p.base64 == "" || p.mediaType == "" then Unsupported
      else Ok(WireInline(p.mediaType, p.base64))
  }

  predicate Expressible(c: Codec, parts: seq<Part>) { forall i | 0 <= i < |parts| :: WirePartFor(c, parts[i]).Ok? }

  function WirePartsFor(c: Codec, parts: seq<Part>): (r: seq<WirePart>)
    requires Expressible(c, parts)
  {
    seq(|parts|, i requires 0 <= i < |parts| => WirePartFor(c, parts[i]).value)
  }

  /** The loop of `chatContentFor`. */
  method ChatContentFor(m: Message, role: string) returns (r: Outcome<WireMessage>)
    ensures r.Ok? <==> Expressible(ByUrl, m.parts)
    ensures r.Ok? ==>
              r.value ==
              if m.parts == [] then WirePlain(role, m.content) else WireParts(role, WirePartsFor(ByUrl, m.parts))
  {
    if |m.parts| == 0 { return Ok(WirePlain(role, m.content)); }
    var parts: seq<WirePart> := [];
    for i := 0 to |m.parts|
      invariant Expressible(ByUrl, m.parts[..i]) && parts == WirePartsFor(ByUrl, m.parts[..i])
    {
      var p := m.parts[i];
      match p.kind {
        case TextKind => parts := parts + [WireText(p.text)];
        case ImageKind =>
          var url := ImageUrlFor(p);
          if url.Unsupported? { return Unsupported; }
          parts := parts + [WireUrl(url.value)];
        case OtherKind(_) => return Unsupported;
      }
    }
    assert m.parts[..|m.parts|] == m.parts;
    r := Ok(WireParts(role, parts));
  }

  /** The loops of `geminiPartsFor` and `anthropicContentFor`. */
  method InlinePartsFor(parts: seq<Part>) returns (r: Outcome<seq<WirePart>>)
    ensures r.Ok? <==> Expressible(Inline, parts)
    ensures r.Ok? ==> r.value == WirePartsFor(Inline, parts)
  {
    var out: seq<WirePart> := [];
    for i := 0 to |parts|
      invariant Expressible(Inline, parts[..i]) && out == WirePartsFor(Inline, parts[..i])
    {
      var p := parts[i];
      match p.kind {
        case TextKind => out := out + [WireText(p.text)];
        case ImageKind =>
          if p.base64 == "" || p.mediaType == "" { return Unsupported; }
          out := out + [WireInline(p.mediaType, p.base64)];
        case OtherKind(_) => return Unsupported;
      }
    }
    assert parts[..|parts|] == parts;
    r := Ok(out);
  }

  // ----- part by part ---------------------------------------------------------------------------

  /** What a reader of the wire sees. */
  function Shown(p: WirePart): Item {
    match p
    case WireText(text) => TextItem(text)
    case WireUrl(url) => UrlItem(url)
    case WireInline(mediaType, data) => UrlItem(Url(DataUrl(mediaType, data)))
  }

  function AllShown(parts: seq<WirePart>): (r: seq<Item>)
    ensures |r| == |parts| && forall i | 0 <= i < |parts| :: r[i] == Shown(parts[i])
  {
    seq(|parts|, i requires 0 <= i < |parts| => Shown(parts[i]))
  }

  predicate IsInline(url: string) {
    Parsed(url).Some? && Parsed(url).value.mediaType != "" && Parsed(url).value.base64 != ""
  }

  /** By URL anything goes but an empty URL or a data URL missing a half; inline, only a whole data URL. */
  predicate Sendable(c: Codec, i: Item) {
    i.UrlItem? ==> if c == Inline then IsInline(i.url) else i.url != "" && (Parsed(i.url).Some? ==> IsInline(i.url))
  }

  predicate AllSendable(c: Codec, items: seq<Item>) { forall i | 0 <= i < |items| :: Sendable(c, items[i]) }

  lemma ItemSurvives(c: Codec, i: Item)
    ensures WirePartFor(c, Normal(i)).Ok? <==> Sendable(c, i)
    ensures Sendable(c, i) ==> Shown(WirePartFor(c, Normal(i)).value) == i
  {
    if i.UrlItem? && Parsed(i.url).Some? {
      ParsedUrlRebuilds(i.url);
      assert Parsed("").None?;
    }
  }

  /** Parts reach a wire as they were sent, byte for byte and in order, or the message is refused. */
  lemma PartsSurvive(c: Codec, items: seq<Item>)
    ensures Expressible(c, Normals(items)) <==> AllSendable(c, items)
    ensures AllSendable(c, items) ==> AllShown(WirePartsFor(c, Normals(items))) == items
  {
    forall i | 0 <= i < |items|
      ensures WirePartFor(c, Normals(items)[i]).Ok? <==> Sendable(c, items[i])
      ensures Sendable(c, items[i]) ==> Shown(WirePartFor(c, Normals(items)[i]).value) == items[i]
    {
      ItemSurvives(c, items[i]);
    }
  }

  // ----- whole requests --------------------------------------------------------------------------

  /** A message as its items; one without parts is its plain text. */
  function Said(m: ClientMessage): seq<Item> {
    match m.body
    case Array(arr) => if Items(arr) == [] then [TextItem("")] else Items(arr)
    case Plain(text) => [TextItem(text)]
    case _ => [TextItem("")]
  }

  function Heard(m: WireMessage): seq<Item> {
    match m
    case WirePlain(_, text) => [TextItem(text)]
    case WireParts(_, parts) => AllShown(parts)
  }

  function WireMessageFor(c: Codec, m: Message, role: string): WireMessage
    requires Expressible(c, m.parts)
  {
    if m.parts == [] then WirePlain(role, m.content) else WireParts(role, WirePartsFor(c, m.parts))
  }

  lemma MessageSurvives(c: Codec, m: ClientMessage, role: string)
    ensures Expressible(c, Normalized(m).parts) <==> AllSendable(c, Said(m))
    ensures AllSendable(c, Said(m)) ==> Heard(WireMessageFor(c, Normalized(m), role)) == Said(m)
  {
    if m.body.Array? { PartsSurvive(c, Items(m.body.parts)); }
  }

  method BuildChatMessages(ms: seq<Message>) returns (r: Outcome<seq<WireMessage>>)
    ensures r.Ok? <==> forall i | 0 <= i < |ms| :: Expressible(ByUrl, ms[i].parts)
    ensures r.Ok? ==> |r.value| == |ms| && forall i | 0 <= i < |ms| ::
            r.value[i] == WireMessageFor(ByUrl, ms[i], ms[i].role)
  {
    var out: seq<WireMessage> := [];
    for i := 0 to |ms|
      invariant |out| == i
      invariant forall k | 0 <= k < i ::
                Expressible(ByUrl, ms[k].parts) && out[k] == WireMessageFor(ByUrl, ms[k], ms[k].role)
    {
      var content := ChatContentFor(ms[i], ms[i].role);
      if content.Unsupported? { return Unsupported; }
      out := out + [content.value];
    }
    r := Ok(out);
  }

  /**
   A client's request on the OpenAI wire: it is built exactly when every image
   is sendable, and then every message, text and URL is the client's own.
   */
  method ClientToOpenAI(ms: seq<ClientMessage>) returns (r: Outcome<seq<WireMessage>>)
    ensures r.Ok? <==> WellFormed(ms) && forall i | 0 <= i < |ms| :: AllSendable(ByUrl, Said(ms[i]))
    ensures r.Ok? ==> |r.value| == |ms| && forall i | 0 <= i < |ms| ::
            r.value[i].role == ms[i].role && Heard(r.value[i]) == Said(ms[i])
  {
    var normal := BuildContent(ms);
    if normal.Unsupported? { return Unsupported; }
    forall i | 0 <= i < |ms|
      ensures Expressible(ByUrl, normal.value[i].parts) <==> AllSendable(ByUrl, Said(ms[i]))
      ensures AllSendable(ByUrl, Said(ms[i])) ==>
              Heard(WireMessageFor(ByUrl, normal.value[i], ms[i].role)) == Said(ms[i])
    {
      MessageSurvives(ByUrl, ms[i], ms[i].role);
    }
    r := BuildChatMessages(normal.value);
  }

  // ----- Gemini and Anthropic, which take system messages apart -------------------------------------

  predicate IsSystem(role: string) { role == "system" }

  function GeminiRoleFor(role: string): string { if role == "user" then "user" else "model" }

  function AnthropicRoleFor(role: string): string { if role == "assistant" then "assistant" else "user" }

  /** A Gemini message always has parts; one text part stands for plain content. */
  function GeminiParts(m: Message): seq<WirePart>
    requires Expressible(Inline, m.parts)
  {
    if m.parts == [] then [WireText(m.content)] else WirePartsFor(Inline, m.parts)
  }

  datatype GeminiRequest = GeminiRequest(contents: seq<WireMessage>, system: seq<WirePart>)

  /** One more message, on the request built so far. */
  function GeminiWith(g: GeminiRequest, m: Message): GeminiRequest
    requires Expressible(Inline, m.parts)
  {
    if IsSystem(m.role) then g.(system := g.system + GeminiParts(m))
    else g.(contents := g.contents + [WireParts(GeminiRoleFor(m.role), GeminiParts(m))])
  }

  function GeminiFor(ms: seq<Message>): GeminiRequest
    requires forall i | 0 <= i < |ms| :: Expressible(Inline, ms[i].parts)
  {
    if ms == [] then GeminiRequest([], [])
    else GeminiWith(GeminiFor(ms[..|ms| - 1]), ms[|ms| - 1])
  }

  method BuildGeminiRequest(toolChoice: string, responseFormat: string, ms: seq<Message>)
    returns (r: Outcome<GeminiRequest>)
    ensures r.Ok? <==>
            toolChoice == "" && responseFormat == "" && forall i | 0 <= i < |ms| :: Expressible(Inline, ms[i].parts)
    ensures r.Ok? ==> r.value == GeminiFor(ms)
  {
    if toolChoice != "" || responseFormat != "" { return Unsupported; }
    var contents: seq<WireMessage>, system: seq<WirePart> := [], [];
    for i := 0 to |ms|
      invariant forall k | 0 <= k < i :: Expressible(Inline, ms[k].parts)
      invariant GeminiFor(ms[..i]) == GeminiRequest(contents, system)
    {
      assert ms[..i + 1][..i] == ms[..i];
      var m := ms[i];
      var parts := InlinePartsFor(m.parts);
      if parts.Unsupported? { return Unsupported; }
      var shown := if |m.parts| == 0 then [WireText(m.content)] else parts.value;
      if IsSystem(m.role) {
        system := system + shown;
      } else {
        contents := contents + [WireParts(GeminiRoleFor(m.role), shown)];
      }
    }
    assert ms[..|ms|] == ms;
    r := Ok(GeminiRequest(contents, system));
  }

  /** What the messages with, or without, the system role said: one list, and one list each. */
  function SystemSaid(ms: seq<ClientMessage>): seq<Item> {
    if ms == [] then []
    else
      var m := ms[|ms| - 1];
      SystemSaid(ms[..|ms| - 1]) + if IsSystem(m.role) then Said(m) else []
  }

  function OthersSaid(ms: seq<ClientMessage>): seq<seq<Item>> {
    if ms == [] then []
    else
      var m := ms[|ms| - 1];
      OthersSaid(ms[..|ms| - 1]) + if IsSystem(m.role) then [] else [Said(m)]
  }

  function AllHeard(ms: seq<WireMessage>): seq<seq<Item>> {
    seq(|ms|, i requires 0 <= i < |ms| => Heard(ms[i]))
  }

  lemma GeminiPartsSurvive(m: ClientMessage)
    requires AllSendable(Inline, Said(m))
    ensures Expressible(Inline, Normalized(m).parts) && AllShown(GeminiParts(Normalized(m))) == Said(m)
  {
    MessageSurvives(Inline, m, m.role);
  }

  ghost predicate GeminiHears(ms: seq<ClientMessage>, g: GeminiRequest) {
    AllShown(g.system) == SystemSaid(ms) && AllHeard(g.contents) == OthersSaid(ms)
  }

  lemma GeminiHearsOneMore(ms: seq<ClientMessage>, g: GeminiRequest, m: ClientMessage)
    requires GeminiHears(ms, g) && AllSendable(Inline, Said(m)) && Expressible(Inline, Normalized(m).parts)
    ensures GeminiHears(ms + [m], GeminiWith(g, Normalized(m)))
  {
    GeminiPartsSurvive(m);
    assert (ms + [m])[..|ms|] == ms;
    ShownAppend(g.system, GeminiParts(Normalized(m)));
    HeardAppend(g.contents, WireParts(GeminiRoleFor(m.role), GeminiParts(Normalized(m))));
  }

  lemma ShownAppend(a: seq<WirePart>, b: seq<WirePart>)
    ensures AllShown(a + b) == AllShown(a) + AllShown(b)
  {
  }

  lemma HeardAppend(ms: seq<WireMessage>, m: WireMessage)
    ensures AllHeard(ms + [m]) == AllHeard(ms) + [Heard(m)]
  {
  }

  ghost predicate NormalFor(ns: seq<Message>, ms: seq<ClientMessage>) {
    |ns| == |ms| && forall i | 0 <= i < |ms| ::
      ns[i] == Normalized(ms[i]) && AllSendable(Inline, Said(ms[i])) && Expressible(Inline, ns[i].parts)
  }

  lemma {:induction false} GeminiHearsAll(ns: seq<Message>, ms: seq<ClientMessage>)
    requires NormalFor(ns, ms)
    ensures GeminiHears(ms, GeminiFor(ns))
  {
    if ms != [] {
      var n := |ms| - 1;
      GeminiHearsAll(ns[..n], ms[..n]);
      GeminiHearsOneMore(ms[..n], GeminiFor(ns[..n]), ms[n]);
      assert ms[..n] + [ms[n]] == ms;
    }
  }

  /** On the Gemini wire every image of every message is the client's data URL in two halves, or nothing is sent. */
  method ClientToGemini(toolChoice: string, responseFormat: string, ms: seq<ClientMessage>)
    returns (r: Outcome<GeminiRequest>)
    ensures r.Ok? <==>
              && toolChoice == "" && responseFormat == ""
              && WellFormed(ms) && forall i | 0 <= i < |ms| :: AllSendable(Inline, Said(ms[i]))
    ensures r.Ok? ==> GeminiHears(ms, r.value)
  {
    var normal := BuildContent(ms);
    if normal.Unsupported? { return Unsupported; }
    forall i | 0 <= i < |ms| ensures Expressible(Inline, normal.value[i].parts) <==> AllSendable(Inline, Said(ms[i])) {
      MessageSurvives(Inline, ms[i], ms[i].role);
    }
    r := BuildGeminiRequest(toolChoice, responseFormat, normal.value);
    if r.Ok? { GeminiHearsAll(normal.value, ms); }
  }

  datatype AnthropicRequest = AnthropicRequest(messages: seq<WireMessage>, system: string)

  /** The text of a system message's parts; its images are not looked at. */
  function PartTexts(parts: seq<Part>): string {
    if parts == [] then ""
    else
      var p := parts[|parts| - 1];
      PartTexts(parts[..|parts| - 1]) + if p.kind == TextKind then p.text else ""
  }

  function SystemText(m: Message): string { if m.parts == [] then m.content else PartTexts(m.parts) }

  method AnthropicSystemText(m: Message) returns (text: string)
    ensures text == SystemText(m)
  {
    if |m.parts| == 0 { return m.content; }
    text := "";
    for i := 0 to |m.parts|
      invariant text == PartTexts(m.parts[..i])
    {
      assert m.parts[..i + 1][..i] == m.parts[..i];
      if m.parts[i].kind == TextKind { text := text + m.parts[i].text; }
    }
    assert m.parts[..|m.parts|] == m.parts;
  }

  /** `strings.Join` with a blank line between. */
  function Joined(texts: seq<string>): string {
    if texts == [] then ""
    else if |texts| == 1 then texts[0]
    else Joined(texts[..|texts| - 1]) + "\n\n" + texts[|texts| - 1]
  }

  predicate AnthropicTakes(m: Message) { IsSystem(m.role) || Expressible(Inline, m.parts) }

  predicate AnthropicExpressible(ms: seq<Message>) { forall i | 0 <= i < |ms| :: AnthropicTakes(ms[i]) }

  function SystemTexts(ms: seq<Message>): seq<string> {
    if ms == [] then []
    else
      var m := ms[|ms| - 1];
      SystemTexts(ms[..|ms| - 1]) + if IsSystem(m.role) then [SystemText(m)] else []
  }

  function Turns(ms: seq<Message>): seq<WireMessage>
    requires AnthropicExpressible(ms)
  {
    if ms == [] then []
    else
      var m := ms[|ms| - 1];
      Turns(ms[..|ms| - 1]) + if IsSystem(m.role) then [] else [WireMessageFor(Inline, m, AnthropicRoleFor(m.role))]
  }

  /** The content of a message that is not a system one. */
  method AnthropicContentFor(m: Message) returns (r: Outcome<WireMessage>)
    ensures r.Ok? <==> Expressible(Inline, m.parts)
    ensures r.Ok? ==> r.value == WireMessageFor(Inline, m, AnthropicRoleFor(m.role))
  {
    var role := AnthropicRoleFor(m.role);
    if |m.parts| == 0 { return Ok(WirePlain(role, m.content)); }
    var parts := InlinePartsFor(m.parts);
    r := if parts.Ok? then Ok(WireParts(role, parts.value)) else Unsupported;
  }

  lemma OneMoreMessage(ms: seq<Message>, i: nat)
    requires i < |ms| && AnthropicExpressible(ms[..i]) && AnthropicTakes(ms[i])
    ensures AnthropicExpressible(ms[..i + 1])
    ensures IsSystem(ms[i].role) ==>
              Turns(ms[..i + 1]) == Turns(ms[..i]) &&
              SystemTexts(ms[..i + 1]) == SystemTexts(ms[..i]) + [SystemText(ms[i])]
    ensures !IsSystem(ms[i].role) ==>
              && Turns(ms[..i + 1]) == Turns(ms[..i]) + [WireMessageFor(Inline, ms[i], AnthropicRoleFor(ms[i].role))]
              && SystemTexts(ms[..i + 1]) == SystemTexts(ms[..i])
  {
    assert ms[..i + 1][..i] == ms[..i] && ms[..i + 1][i] == ms[i];
  }

  method BuildAnthropicRequest(toolChoice: string, responseFormat: string, ms: seq<Message>)
    returns (r: Outcome<AnthropicRequest>)
    ensures r.Ok? <==> toolChoice == "" && responseFormat == "" && AnthropicExpressible(ms)
    ensures r.Ok? ==> r.value == AnthropicRequest(Turns(ms), Joined(SystemTexts(ms)))
  {
    if toolChoice != "" || responseFormat != "" { return Unsupported; }
    var messages: seq<WireMessage>, system: seq<string> := [], [];
    for i := 0 to |ms|
      invariant AnthropicExpressible(ms[..i])
      invariant messages == Turns(ms[..i]) && system == SystemTexts(ms[..i])
    {
      if IsSystem(ms[i].role) {
        var text := AnthropicSystemText(ms[i]);
        system := system + [text];
      } else {
        var content := AnthropicContentFor(ms[i]);
        if content.Unsupported? {
          assert !AnthropicTakes(ms[i]);
          return Unsupported;
        }
        messages := messages + [content.value];
      }
      OneMoreMessage(ms, i);
    }
    assert ms[..|ms|] == ms;
    r := Ok(AnthropicRequest(messages, Joined(system)));
  }

  lemma TurnHeard(ns: seq<Message>, n: Message, m: ClientMessage)
    requires n == Normalized(m) && AnthropicTakes(n) && AnthropicExpressible(ns)
    ensures AnthropicExpressible(ns + [n])
    ensures AllHeard(Turns(ns + [n])) == AllHeard(Turns(ns)) + if IsSystem(m.role) then [] else [Said(m)]
  {
    assert (ns + [n])[..|ns|] == ns;
    MessageSurvives(Inline, m, AnthropicRoleFor(m.role));
  }

  lemma {:induction false} AnthropicHearsTheRest(ms: seq<ClientMessage>)
    requires AnthropicExpressible(AllNormalized(ms))
    ensures AllHeard(Turns(AllNormalized(ms))) == OthersSaid(ms)
  {
    if ms != [] {
      var front, m := ms[..|ms| - 1], ms[|ms| - 1];
      assert AllNormalized(ms) == AllNormalized(front) + [Normalized(m)];
      ExpressibleFront(AllNormalized(front), Normalized(m));
      AnthropicHearsTheRest(front);
      TurnHeard(AllNormalized(front), Normalized(m), m);
    }
  }

  lemma ExpressibleFront(ns: seq<Message>, n: Message)
    requires AnthropicExpressible(ns + [n])
    ensures AnthropicExpressible(ns) && AnthropicTakes(n)
  {
    assert forall i | 0 <= i < |ns| :: (ns + [n])[i] == ns[i];
    assert (ns + [n])[|ns|] == n;
  }

  function Texts(items: seq<Item>): string {
    if items == [] then ""
    else Texts(items[..|items| - 1]) + if items[|items| - 1].TextItem? then items[|items| - 1].text else ""
  }

  lemma {:induction false} NormalTexts(items: seq<Item>)
    ensures PartTexts(Normals(items)) == Texts(items)
  {
    if items != [] {
      NormalTexts(items[..|items| - 1]);
      assert Normals(items)[..|items| - 1] == Normals(items[..|items| - 1]);
    }
  }

  /** Of a system message the Anthropic wire carries the text alone: its images are neither sent nor refused. */
  lemma SystemMessagesLoseTheirImages(m: ClientMessage)
    ensures SystemText(Normalized(m)) == Texts(Said(m))
  {
    match m.body
    case Array(arr) =>
      NormalTexts(Items(arr));
      assert Items(arr) == [] ==> Texts([TextItem("")]) == Texts([]) + "";
    case Plain(text) =>
      assert [TextItem(text)][..0] == [] && "" + text == text;
    case _ =>
      assert [TextItem("")][..0] == [];
  }

  /** The text of each system message, its images left out. */
  function SystemTextsSaid(ms: seq<ClientMessage>): seq<string> {
    if ms == [] then []
    else
      var m := ms[|ms| - 1];
      SystemTextsSaid(ms[..|ms| - 1]) + if IsSystem(m.role) then [Texts(Said(m))] else []
  }

  lemma {:induction false} AnthropicHearsTheSystem(ms: seq<ClientMessage>)
    ensures SystemTexts(AllNormalized(ms)) == SystemTextsSaid(ms)
  {
    if ms != [] {
      var front, m := ms[..|ms| - 1], ms[|ms| - 1];
      AnthropicHearsTheSystem(front);
      SystemMessagesLoseTheirImages(m);
      assert AllNormalized(ms)[..|ms| - 1] == AllNormalized(front);
    }
  }

  predicate AnthropicSends(m: ClientMessage) { IsSystem(m.role) || AllSendable(Inline, Said(m)) }

  ghost predicate AnthropicHears(ms: seq<ClientMessage>, r: AnthropicRequest) {
    AllHeard(r.messages) == OthersSaid(ms) && r.system == Joined(SystemTextsSaid(ms))
  }

  /** On the Anthropic wire all but the system messages arrive whole, and of those the text, or nothing is sent. */
  method ClientToAnthropic(toolChoice: string, responseFormat: string, ms: seq<ClientMessage>)
    returns (r: Outcome<AnthropicRequest>)
    ensures r.Ok? <==>
              && toolChoice == "" && responseFormat == ""
              && WellFormed(ms) && forall i | 0 <= i < |ms| :: AnthropicSends(ms[i])
    ensures r.Ok? ==> AnthropicHears(ms, r.value)
  {
    var normal := BuildContent(ms);
    if normal.Unsupported? { return Unsupported; }
    forall i | 0 <= i < |ms| ensures AnthropicTakes(normal.value[i]) <==> AnthropicSends(ms[i]) {
      MessageSurvives(Inline, ms[i], ms[i].role);
    }
    r := BuildAnthropicRequest(toolChoice, responseFormat, normal.value);
    if r.Ok? {
      AnthropicHearsTheRest(ms);
      AnthropicHearsTheSystem(ms);
    }
  }

  // ----- what becomes of images in system messages -----------------------------------------------

  function Images(items: seq<Item>): seq<string> {
    if items == [] then []
    else
      var last := items[|items| - 1];
      Images(items[..|items| - 1]) + if last.UrlItem? then [last.url] else []
  }

  /** The images a client sent, and those a list of turns carries, in order. */
  function SaidImages(ms: seq<ClientMessage>): seq<string> {
    if ms == [] then [] else SaidImages(ms[..|ms| - 1]) + Images(Said(ms[|ms| - 1]))
  }

  function ImagesOf(turns: seq<seq<Item>>): seq<string> {
    if turns == [] then [] else ImagesOf(turns[..|turns| - 1]) + Images(turns[|turns| - 1])
  }

  function SystemImages(ms: seq<ClientMessage>): nat {
    if ms == [] then 0
    else
      var m := ms[|ms| - 1];
      SystemImages(ms[..|ms| - 1]) + if IsSystem(m.role) then |Images(Said(m))| else 0
  }

  lemma {:induction false} ImagesAreCounted(items: seq<Item>)
    ensures Images(items) != [] <==> HasImage(items)
  {
    if items != [] {
      var front, last := items[..|items| - 1], items[|items| - 1];
      ImagesAreCounted(front);
      HasImageAppends(front, last);
      assert front + [last] == items;
    }
  }

  lemma {:induction false} OneMoreTurn(turns: seq<seq<Item>>, turn: seq<Item>)
    ensures ImagesOf(turns + [turn]) == ImagesOf(turns) + Images(turn)
  {
    assert (turns + [turn])[..|turns|] == turns;
  }

  lemma {:induction false} TurnsCarryTheRest(ms: seq<ClientMessage>)
    ensures |SaidImages(ms)| == |ImagesOf(OthersSaid(ms))| + SystemImages(ms)
    ensures SystemImages(ms) == 0 ==> SaidImages(ms) == ImagesOf(OthersSaid(ms))
  {
    if ms != [] {
      var front, m := ms[..|ms| - 1], ms[|ms| - 1];
      TurnsCarryTheRest(front);
      if IsSystem(m.role) {
        assert OthersSaid(front) + [] == OthersSaid(front);
      } else {
        OneMoreTurn(OthersSaid(front), Said(m));
      }
    }
  }

  lemma {:induction false} NoSystemImages(ms: seq<ClientMessage>)
    ensures SystemImages(ms) == 0 <==> forall i | 0 <= i < |ms| :: IsSystem(ms[i].role) ==> !HasImage(Said(ms[i]))
  {
    if ms != [] {
      var front, m := ms[..|ms| - 1], ms[|ms| - 1];
      NoSystemImages(front);
      ImagesAreCounted(Said(m));
      assert forall i | 0 <= i < |front| :: front[i] == ms[i];
      if forall i | 0 <= i < |front| :: IsSystem(front[i].role) ==> !HasImage(Said(front[i])) {
        assert IsSystem(m.role) && HasImage(Said(m)) ==>
          !(forall i | 0 <= i < |ms| :: IsSystem(ms[i].role) ==> !HasImage(Said(ms[i])));
      }
    }
  }

  /** A built Anthropic request carries every image the client sent exactly when no system message holds one. */
  lemma AnthropicCarriesAllImagesExactly(ms: seq<ClientMessage>, r: AnthropicRequest)
    requires AnthropicHears(ms, r)
    ensures ImagesOf(AllHeard(r.messages)) == SaidImages(ms) <==>
            forall i | 0 <= i < |ms| :: IsSystem(ms[i].role) ==> !HasImage(Said(ms[i]))
  {
    TurnsCarryTheRest(ms);
    NoSystemImages(ms);
  }

  ghost predicate HoldsUnsendable(items: seq<Item>) {
    exists k :: 0 <= k < |items| && items[k].UrlItem? && !IsInline(items[k].url)
  }

  /**
   A request whose turns can be sent is built; the same builder of parts would
   refuse it, as Gemini's does, exactly when some system message holds an image
   that cannot be sent inline.
   */
  lemma AnthropicSkipsRefusalsExactly(ms: seq<ClientMessage>)
    requires forall i | 0 <= i < |ms| :: AnthropicSends(ms[i])
    ensures (exists i :: 0 <= i < |ms| && !Expressible(Inline, Normalized(ms[i]).parts)) <==>
            exists i :: 0 <= i < |ms| && IsSystem(ms[i].role) && HoldsUnsendable(Said(ms[i]))
  {
    forall i | 0 <= i < |ms| ensures !Expressible(Inline, Normalized(ms[i]).parts) <==> HoldsUnsendable(Said(ms[i])) {
      MessageSurvives(Inline, ms[i], ms[i].role);
      UnsendableIsUnsendable(Said(ms[i]));
    }
  }

  lemma UnsendableIsUnsendable(items: seq<Item>)
    ensures !AllSendable(Inline, items) <==> HoldsUnsendable(items)
  {
    if !AllSendable(Inline, items) {
      var k :| 0 <= k < |items| && !Sendable(Inline, items[k]);
      assert items[k].UrlItem? && !IsInline(items[k].url);
    }
  }

  lemma ImageItemAppends(parts: seq<PartIn>, url: string)
    ensures Items(parts + [PartIn("image_url", "", Some(url))]) == Items(parts) + [UrlItem(url)]
  {
    var all := parts + [PartIn("image_url", "", Some(url))];
    assert all[..|all| - 1] == parts;
  }

  lemma ImageAddsNoText(items: seq<Item>, url: string)
    ensures Texts(items + [UrlItem(url)]) == Texts(items)
  {
    var all := items + [UrlItem(url)];
    assert all[..|all| - 1] == items && Texts(items) + "" == Texts(items);
  }

  /** An image put at the end of any system message is not refused, and the text sent is the one without it. */
  lemma SystemImageVanishes(parts: seq<PartIn>, url: string)
    ensures var said := ClientMessage("system", Array(parts + [PartIn("image_url", "", Some(url))]));
            var mute := ClientMessage("system", Array(parts));
            && AnthropicSends(said) && HasImage(Said(said))
            && SystemText(Normalized(said)) == SystemText(Normalized(mute))
  {
    var said := ClientMessage("system", Array(parts + [PartIn("image_url", "", Some(url))]));
    var mute := ClientMessage("system", Array(parts));
    ImageItemAppends(parts, url);
    ImageAddsNoText(Items(parts), url);
    HasImageAppends(Items(parts), UrlItem(url));
    SystemMessagesLoseTheirImages(said);
    SystemMessagesLoseTheirImages(mute);
    EmptySaysNothing();
  }

  lemma EmptySaysNothing()
    ensures Texts([TextItem("")]) == Texts([])
  {
    assert [TextItem("")][..0] == [];
  }

  // ----- spelled out --------------------------------------------------------------------------

  /** A data URL as section 3 of RFC 2397 writes it, in base64. */
  lemma UrlIsWritten(d: DataUrl)
    ensures Url(d) == "data:" + d.mediaType + ";base64," + d.base64
  {
  }

  ghost predicate MarkAt(s: string, i: nat) { i + 8 <= |s| && s[i..i + 8] == ";base64," }

  /** The mark is nowhere in it. */
  ghost predicate IsUnmarked(s: string) { forall i: nat :: !MarkAt(s, i) }

  lemma MarkAtStart(s: string)
    ensures MARK <= s <==> MarkAt(s, 0)
  {
  }

  lemma MarkFurtherOn(s: string, i: nat)
    requires s != ""
    ensures MarkAt(s[1..], i) <==> MarkAt(s, i + 1)
  {
    if i + 9 <= |s| { assert s[1..][i..i + 8] == s[i + 1..i + 9]; }
  }

  lemma {:induction false} UnmarkedExactly(s: string)
    ensures Index(s, MARK).None? <==> IsUnmarked(s)
  {
    MarkAtStart(s);
    if s != "" {
      UnmarkedExactly(s[1..]);
      forall i: nat ensures MarkAt(s[1..], i) <==> MarkAt(s, i + 1) { MarkFurtherOn(s, i); }
      if IsUnmarked(s[1..]) && !(MARK <= s) {
        forall i: nat ensures !MarkAt(s, i) { if i > 0 { assert !MarkAt(s[1..], i - 1); } }
      }
    }
  }

  /** A URL that can be sent inline: a data URL in base64 with a media type and something in it. */
  predicate IsWhole(url: string, mediaType: string, data: string) {
    url == "data:" + mediaType + ";base64," + data && mediaType != "" && data != ""
  }

  lemma InlineExactly(url: string)
    ensures IsInline(url) <==>
            exists mediaType, data :: IsWhole(url, mediaType, data) && IsUnmarked(mediaType)
  {
    if IsInline(url) {
      var d := Parsed(url).value;
      ParsedUrlRebuilds(url);
      UrlIsWritten(d);
      BuiltUrlParsesBackExactly(d);
      UnmarkedExactly(d.mediaType);
      assert IsWhole(url, d.mediaType, d.base64);
    }
    if mediaType, data :| IsWhole(url, mediaType, data) && IsUnmarked(mediaType) {
      UrlIsWritten(DataUrl(mediaType, data));
      UnmarkedExactly(mediaType);
      BuiltUrlParsesBackExactly(DataUrl(mediaType, data));
    }
  }

  /** A data URL in base64, with or without its halves. */
  predicate IsDataUrl(url: string, mediaType: string, data: string) { url == "data:" + mediaType + ";base64," + data }

  lemma DataUrlExactly(url: string)
    ensures Parsed(url).Some? <==> exists mediaType, data :: IsDataUrl(url, mediaType, data)
  {
    if Parsed(url).Some? {
      ParsedUrlRebuilds(url);
      UrlIsWritten(Parsed(url).value);
      assert IsDataUrl(url, Parsed(url).value.mediaType, Parsed(url).value.base64);
    }
    if mediaType, data :| IsDataUrl(url, mediaType, data) { BuiltIsParsed(mediaType, data); }
  }

  lemma BuiltIsParsed(mediaType: string, data: string)
    ensures Parsed("data:" + mediaType + ";base64," + data).Some?
  {
    var tail := MARK + data;
    var url := "data:" + mediaType + ";base64," + data;
    assert url == SCHEME + (mediaType + tail) && url[|SCHEME|..] == mediaType + tail;
    MarkIsThere(mediaType, tail);
  }

  lemma MarkIsThere(before: string, tail: string)
    requires MARK <= tail
    ensures Index(before + tail, MARK).Some?
  {
    assert StartsOnce(MARK);
    MarkIsFoundWherePut(before, MARK, tail);
  }

  /** What can be sent: any text; inline only a whole data URL; by URL anything but nothing and half a data URL. */
  lemma SendableExactly(i: Item)
    ensures i.TextItem? ==> Sendable(Inline, i) && Sendable(ByUrl, i)
    ensures i.UrlItem? ==>
              && (Sendable(Inline, i) <==>
                    exists mediaType, data :: IsWhole(i.url, mediaType, data) && IsUnmarked(mediaType))
              && (Sendable(ByUrl, i) <==>
                    i.url != "" && ((exists mediaType, data :: IsDataUrl(i.url, mediaType, data)) ==>
                                    exists mediaType, data :: IsWhole(i.url, mediaType, data) && IsUnmarked(mediaType)))
  {
    if i.UrlItem? {
      InlineExactly(i.url);
      DataUrlExactly(i.url);
    }
  }

  /** Part by part, what a client's array says: texts and images with a URL, and nothing else. */
  lemma PartByPart(parts: seq<PartIn>, p: PartIn)
    ensures Items(parts + [p]) ==
            Items(parts) + (if p.kind == "text" then [TextItem(p.text)]
                            else if p.kind == "image_url" && p.url != None then [UrlItem(p.url.value)]
                            else [])
    ensures Items([]) == []
  {
    assert (parts + [p])[..|parts|] == parts;
  }

  /** What a message says: its parts if it has any, and otherwise its text, which may be empty. */
  lemma SaidExactly(m: ClientMessage)
    ensures forall text :: m.body == Plain(text) ==> Said(m) == [TextItem(text)]
    ensures forall parts :: m.body == Array(parts) ==>
                              Said(m) == if Items(parts) != [] then Items(parts) else [TextItem("")]
    ensures m.body == Absent || m.body == Malformed ==> Said(m) == [TextItem("")]
  {
  }

  /** Part by part, what a system message leaves of itself: its texts, and of anything else nothing. */
  lemma TextsAlone(parts: seq<Part>, p: Part)
    ensures p.kind != TextKind ==> PartTexts(parts + [p]) == PartTexts(parts)
    ensures p.kind == TextKind ==> PartTexts(parts + [p]) == PartTexts(parts) + p.text
  {
    assert (parts + [p])[..|parts|] == parts;
    assert PartTexts(parts) + "" == PartTexts(parts);
  }

  /** An image part that has a URL goes by it, whatever data it has besides; else its data go as a data URL. */
  lemma UrlComesFirst(p: Part)
    requires p.kind == ImageKind && WirePartFor(ByUrl, p).Ok?
    ensures Shown(WirePartFor(ByUrl, p).value) ==
            UrlItem(if p.url != "" then p.url else "data:" + p.mediaType + ";base64," + p.base64)
  {
  }

  // ----- who speaks ------------------------------------------------------------------------------

  /** The roles of the messages that are turns. */
  function Speakers(ms: seq<Message>): seq<string> {
    if ms == [] then []
    else Speakers(ms[..|ms| - 1]) + if ms[|ms| - 1].role == "system" then [] else [ms[|ms| - 1].role]
  }

  function RolesOf(ms: seq<WireMessage>): seq<string> { seq(|ms|, i requires 0 <= i < |ms| => ms[i].role) }

  /** Every turn is given to its speaker under the wire's own name for the role. */
  function Renamed(roles: seq<string>, role: string, name: string, other: string): seq<string> {
    seq(|roles|, i requires 0 <= i < |roles| => if roles[i] == role then name else other)
  }

  lemma OneMoreRole(roles: seq<string>, last: string, role: string, name: string, other: string)
    ensures Renamed(roles + [last], role, name, other) ==
            Renamed(roles, role, name, other) + [if last == role then name else other]
  {
  }

  lemma OneMoreSpeaker(ms: seq<WireMessage>, m: WireMessage)
    ensures RolesOf(ms + [m]) == RolesOf(ms) + [m.role]
  {
  }

  lemma {:induction false} GeminiSpeakers(ms: seq<Message>)
    requires forall i | 0 <= i < |ms| :: Expressible(Inline, ms[i].parts)
    ensures RolesOf(GeminiFor(ms).contents) == Renamed(Speakers(ms), "user", "user", "model")
  {
    if ms != [] {
      var front, m := ms[..|ms| - 1], ms[|ms| - 1];
      GeminiSpeakers(front);
      var was := GeminiFor(front);
      if m.role == "system" {
        assert Speakers(ms) == Speakers(front);
        assert GeminiFor(ms).contents == was.contents;
      } else {
        var turn := WireParts(GeminiRoleFor(m.role), GeminiParts(m));
        assert GeminiFor(ms).contents == was.contents + [turn];
        OneMoreSpeaker(was.contents, turn);
        OneMoreRole(Speakers(front), m.role, "user", "user", "model");
      }
    }
  }

  lemma {:induction false} AnthropicSpeakers(ms: seq<Message>)
    requires AnthropicExpressible(ms)
    ensures RolesOf(Turns(ms)) == Renamed(Speakers(ms), "assistant", "assistant", "user")
  {
    if ms != [] {
      var front, m := ms[..|ms| - 1], ms[|ms| - 1];
      AnthropicSpeakers(front);
      if m.role == "system" {
        assert Turns(ms) == Turns(front) && Speakers(ms) == Speakers(front);
      } else {
        var turn := WireMessageFor(Inline, m, AnthropicRoleFor(m.role));
        assert Turns(ms) == Turns(front) + [turn];
        OneMoreSpeaker(Turns(front), turn);
        OneMoreRole(Speakers(front), m.role, "assistant", "assistant", "user");
      }
    }
  }

  /** Message by message: a system message adds to the system part of a request, and any other to its turns. */
  lemma SystemIsApart(ms: seq<ClientMessage>, m: ClientMessage)
    ensures SystemSaid(ms + [m]) == SystemSaid(ms) + if m.role == "system" then Said(m) else []
    ensures OthersSaid(ms + [m]) == OthersSaid(ms) + if m.role == "system" then [] else [Said(m)]
    ensures SystemTextsSaid(ms + [m]) == SystemTextsSaid(ms) + if m.role == "system" then [Texts(Said(m))] else []
  {
    assert (ms + [m])[..|ms|] == ms;
  }

  /** System texts are joined by blank lines. */
  lemma JoinedByBlankLines(texts: seq<string>, text: string)
    ensures Joined([]) == "" && Joined([text]) == text
    ensures texts != [] ==> Joined(texts + [text]) == Joined(texts) + "\n\n" + text
  {
    assert (texts + [text])[..|texts|] == texts;
  }
}
