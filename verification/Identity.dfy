/**
 catalog/sync/identity.ts: which upstream model a catalog id names. Ids are
 normalised, looked up in an index, and bound only on evidence: when the first
 rule that matches anything matches a single identity.
 */
module Identity {
  import opened Characters
  import opened Evidence
  import opened Wrappers

  datatype Upstream = Upstream(id: string, slug: Option<string>)

  datatype Rule = Exact | FreeVariant | ExactSize | Overlay

  datatype Resolution =
    | Resolved(rule: Rule, target: string, candidates: seq<string>)
    | Ambiguous(candidates: seq<string>)
    | Unresolved

  // ----- normalising an id --------------------------------------------------------------

  const VARIANTS := [":free", ":beta", ":extended", ":batch", ":thinking", ":online", ":nitro", ":floor"]
  const CLOUD := [":cloud", "-cloud"]

  function Lowercase(s: string): (r: string)
    ensures |r| == |s| && forall i | 0 <= i < |s| :: r[i] == Lower(s[i])
  {
    seq(|s|, i requires 0 <= i < |s| => Lower(s[i]))
  }

  /** Where the first `c` is, or the length. */
  function Find(s: string, c: char): (r: nat)
    ensures r <= |s| && (r < |s| ==> s[r] == c) && forall i | 0 <= i < r :: s[i] != c
  {
    if s == "" || s[0] == c then 0
    else
      assert forall i | 1 <= i < |s| :: s[i] == s[1..][i - 1];
      1 + Find(s[1..], c)
  }

  lemma {:induction false} FindAt(s: string, c: char, i: nat)
    requires i < |s| && s[i] == c && c !in s[..i]
    ensures Find(s, c) == i
  {
  }

  /** Without the vendor: everything to the first slash, unless the slash comes first. */
  function StripVendor(s: string): string {
    if 0 < Find(s, '/') < |s| then s[Find(s, '/') + 1..] else s
  }

  predicate EndsWith(s: string, x: string) { |x| <= |s| && s[|s| - |x|..] == x }

  function StripAny(s: string, suffixes: seq<string>): (r: string)
    ensures r <= s
  {
    if suffixes == [] then s
    else if EndsWith(s, suffixes[0]) then s[..|s| - |suffixes[0]|]
    else StripAny(s, suffixes[1..])
  }

  function Separator(c: char): char { if c in {'.', '_', '-', ':'} then '-' else c }

  function Separated(s: string): (r: string)
    ensures |r| == |s| && forall i | 0 <= i < |s| :: r[i] == Separator(s[i])
  {
    seq(|s|, i requires 0 <= i < |s| => Separator(s[i]))
  }

  /** What follows the vendor: no plan variant, no cloud suffix, one kind of separator. */
  function Tail(s: string): string { Separated(StripAny(StripAny(s, VARIANTS), CLOUD)) }

  function NormalizeId(raw: string): string { Tail(StripVendor(Lowercase(raw))) }

  // ----- what normalising keeps ------------------------------------------------------------

  function Slashes(s: string): nat {
    if s == "" then 0 else Slashes(s[..|s| - 1]) + if s[|s| - 1] == '/' then 1 else 0
  }

  predicate SlashFree(suffixes: seq<string>) { forall i | 0 <= i < |suffixes| :: '/' !in suffixes[i] }

  lemma {:induction false} SlashesUpTo(s: string, k: nat)
    requires k <= |s| && forall i | k <= i < |s| :: s[i] != '/'
    ensures Slashes(s) == Slashes(s[..k])
  {
    if k < |s| {
      SlashesUpTo(s[..|s| - 1], k);
      assert s[..|s| - 1][..k] == s[..k];
    } else {
      assert s[..k] == s;
    }
  }

  lemma {:induction false} StrippingKeepsSlashes(s: string, suffixes: seq<string>)
    requires SlashFree(suffixes)
    ensures Slashes(StripAny(s, suffixes)) == Slashes(s)
  {
    if suffixes != [] {
      var x := suffixes[0];
      if EndsWith(s, x) {
        forall i | |s| - |x| <= i < |s| ensures s[i] != '/' {
          assert s[i] == x[i - (|s| - |x|)];
        }
        SlashesUpTo(s, |s| - |x|);
      } else {
        StrippingKeepsSlashes(s, suffixes[1..]);
      }
    }
  }

  lemma {:induction false} SeparatingKeepsSlashes(s: string)
    ensures Slashes(Separated(s)) == Slashes(s)
  {
    if s != "" {
      SeparatingKeepsSlashes(s[..|s| - 1]);
      assert Separated(s)[..|s| - 1] == Separated(s[..|s| - 1]);
    }
  }

  lemma TailKeepsSlashes(s: string)
    ensures Slashes(Tail(s)) == Slashes(s)
  {
    var plain := StripAny(s, VARIANTS);
    StrippingKeepsSlashes(s, VARIANTS);
    StrippingKeepsSlashes(plain, CLOUD);
    SeparatingKeepsSlashes(StripAny(plain, CLOUD));
  }

  lemma {:induction false} SlashesSplit(s: string, k: nat)
    requires k <= |s|
    ensures Slashes(s) == Slashes(s[..k]) + Slashes(s[k..])
  {
    if k < |s| {
      SlashesSplit(s[..|s| - 1], k);
      assert s[..|s| - 1][..k] == s[..k] && s[..|s| - 1][k..] == s[k..][..|s[k..]| - 1];
    } else {
      assert s[..k] == s;
    }
  }

  lemma VendorTakesASlash(s: string)
    requires StripVendor(s) != s
    ensures Slashes(StripVendor(s)) < Slashes(s)
  {
    var p := Find(s, '/');
    SlashesSplit(s, p + 1);
    assert s[..p + 1][..|s[..p + 1]| - 1] == s[..p];
  }

  lemma StripVendorOfLowercase(s: string)
    ensures StripVendor(Lowercase(s)) == Lowercase(StripVendor(s))
  {
    assert forall i | 0 <= i < |s| :: Lowercase(s)[i] == '/' <==> s[i] == '/';
    assert Find(Lowercase(s), '/') == Find(s, '/');
  }

  lemma LowercaseKeepsVendor(s: string)
    ensures StripVendor(Lowercase(s)) == Lowercase(s) <==> StripVendor(s) == s
  {
    StripVendorOfLowercase(s);
    assert StripVendor(s) != s ==> |StripVendor(s)| < |s|;
  }

  /**
   A resolver that drops the vendor before normalising looks for the id's own
   key exactly when no second vendor is left: of `a/b/c` it looks for `c`,
   while the upstream model `a/b/c` is filed under `b/c`.
   */
  lemma VendorDroppedTwiceExactly(raw: string)
    ensures NormalizeId(StripVendor(raw)) == NormalizeId(raw) <==> StripVendor(StripVendor(raw)) == StripVendor(raw)
  {
    var once := Lowercase(StripVendor(raw));
    StripVendorOfLowercase(raw);
    LowercaseKeepsVendor(StripVendor(raw));
    if StripVendor(once) != once {
      VendorTakesASlash(once);
      TailKeepsSlashes(once);
      TailKeepsSlashes(StripVendor(once));
    }
  }

  predicate Clean(s: string) { forall i | 0 <= i < |s| :: s[i] !in {'.', '_', ':'} && !('A' <= s[i] <= 'Z') }

  lemma NormalizedIsClean(raw: string)
    ensures Clean(NormalizeId(raw))
  {
    var low := Lowercase(raw);
    var s := StripVendor(low);
    assert forall i | 0 <= i < |s| :: s[i] in low;
    assert forall i | 0 <= i < |low| :: !('A' <= low[i] <= 'Z');
    var t := StripAny(StripAny(s, VARIANTS), CLOUD);
    assert forall i | 0 <= i < |t| :: t[i] == s[i];
  }

  predicate Coloned(suffixes: seq<string>) {
    forall i | 0 <= i < |suffixes| :: suffixes[i] != "" && suffixes[i][0] == ':'
  }

  lemma SuffixIsInside(s: string, x: string)
    requires x != ""
    ensures EndsWith(s, x) ==> x[0] in s
  {
    if EndsWith(s, x) { assert s[|s| - |x|] == x[0]; }
  }

  lemma NoColonToStrip(s: string, x: string)
    requires Clean(s) && x != "" && x[0] == ':'
    ensures !EndsWith(s, x)
  {
    SuffixIsInside(s, x);
  }

  lemma {:induction false} NothingToStrip(s: string, suffixes: seq<string>)
    requires Clean(s) && Coloned(suffixes)
    ensures StripAny(s, suffixes) == s
  {
    if suffixes != [] {
      NoColonToStrip(s, suffixes[0]);
      NothingToStrip(s, suffixes[1..]);
    }
  }

  lemma CleanTail(s: string)
    requires Clean(s)
    ensures Tail(s) == if EndsWith(s, "-cloud") then s[..|s| - 6] else s
  {
    NothingToStrip(s, VARIANTS);
    NoColonToStrip(s, ":cloud");
    assert CLOUD[0] == ":cloud" && CLOUD[1..] == ["-cloud"] && ["-cloud"][1..] == [];
    assert StripAny(s, ["-cloud"]) == if EndsWith(s, "-cloud") then s[..|s| - 6] else s;
    var t := StripAny(s, CLOUD);
    assert t == StripAny(s, ["-cloud"]);
    assert Separated(t) == t;
  }

  /** What is left of a raw id when one vendor, one plan variant and one cloud suffix are dropped. */
  function Bare(raw: string): string { StripAny(StripAny(StripVendor(Lowercase(raw)), VARIANTS), CLOUD) }

  /** Another `cloud` at the end, behind any separator. */
  predicate MoreCloud(s: string) { |s| >= 6 && Separator(s[|s| - 6]) == '-' && s[|s| - 5..] == "cloud" }

  lemma SlashesPassSeparators(s: string)
    ensures StripVendor(Separated(s)) == Separated(s) <==> StripVendor(s) == s
  {
    assert forall i | 0 <= i < |s| :: Separated(s)[i] == '/' <==> s[i] == '/';
    assert Find(Separated(s), '/') == Find(s, '/');
    assert StripVendor(s) != s ==> |StripVendor(s)| < |s|;
    assert StripVendor(Separated(s)) != Separated(s) ==> |StripVendor(Separated(s))| < |s|;
  }

  /** Dropping a suffix without slashes leaves the first slash where it is. */
  lemma SlashStays(s: string, suffixes: seq<string>)
    requires SlashFree(suffixes)
    ensures StripVendor(StripAny(s, suffixes)) == StripAny(s, suffixes) <==> StripVendor(s) == s
  {
    var r := StripAny(s, suffixes);
    StrippingKeepsSlashes(s, suffixes);
    assert r == s[..|r|];
    SlashesSplit(s, |r|);
    if Find(s, '/') < |s| {
      if |r| <= Find(s, '/') {
        SlashesUpTo(r, 0);
        HasSlash(s[|r|..], Find(s, '/') - |r|);
      }
      assert Find(r, '/') == Find(s, '/');
    } else {
      assert Find(r, '/') == |r|;
    }
    assert StripVendor(s) != s ==> |StripVendor(s)| < |s|;
    assert StripVendor(r) != r ==> |StripVendor(r)| < |r|;
  }

  lemma {:induction false} HasSlash(s: string, i: nat)
    requires i < |s| && s[i] == '/'
    ensures Slashes(s) > 0
  {
    if i < |s| - 1 { HasSlash(s[..|s| - 1], i); }
  }

  lemma CloudPassesSeparators(s: string)
    ensures EndsWith(Separated(s), "-cloud") <==> MoreCloud(s)
  {
    if |s| >= 6 {
      var k, n := Separated(s), |s| - 6;
      assert k[n..] == [k[n], k[n + 1], k[n + 2], k[n + 3], k[n + 4], k[n + 5]];
      assert s[n + 1..] == [s[n + 1], s[n + 2], s[n + 3], s[n + 4], s[n + 5]];
    }
  }

  /** The same for two lists of suffixes, one after the other, and separators. */
  lemma SlashStaysThroughout(s: string, first: seq<string>, second: seq<string>)
    requires SlashFree(first) && SlashFree(second)
    ensures var r := Separated(StripAny(StripAny(s, first), second));
            StripVendor(r) == r <==> StripVendor(s) == s
  {
    SlashStays(s, first);
    SlashStays(StripAny(s, first), second);
    SlashesPassSeparators(StripAny(StripAny(s, first), second));
  }

  lemma SuffixesHoldNoSlash()
    ensures SlashFree(VARIANTS) && SlashFree(CLOUD)
  {
  }

  lemma VendorOfTail(once: string)
    ensures StripVendor(Tail(once)) == Tail(once) <==> StripVendor(once) == once
  {
    SuffixesHoldNoSlash();
    SlashStaysThroughout(once, VARIANTS, CLOUD);
  }

  lemma VendorLeftExactly(raw: string)
    ensures StripVendor(NormalizeId(raw)) == NormalizeId(raw) <==> StripVendor(StripVendor(raw)) == StripVendor(raw)
  {
    VendorOfTail(StripVendor(Lowercase(raw)));
    StripVendorOfLowercase(raw);
    LowercaseKeepsVendor(StripVendor(raw));
  }

  /**
   Normalising twice is normalising once exactly when the id has no second
   vendor and, once its vendor, a plan variant and a cloud suffix are dropped,
   does not end in `cloud` behind any separator.
   */
  lemma NormalizingTwiceExactly(raw: string)
    ensures NormalizeId(NormalizeId(raw)) == NormalizeId(raw) <==>
            StripVendor(StripVendor(raw)) == StripVendor(raw) && !MoreCloud(Bare(raw))
  {
    NormalizedIsFixedExactly(raw);
    VendorLeftExactly(raw);
    CloudPassesSeparators(Bare(raw));
  }

  lemma NormalizingIsNotIdempotent()
    ensures NormalizeId(NormalizeId("a/b/c")) != NormalizeId("a/b/c")
  {
    FindAt("a/b/c", '/', 1);
    FindAt("b/c", '/', 1);
    NormalizingTwiceExactly("a/b/c");
  }

  lemma NormalizedIsFixedExactly(raw: string)
    ensures var k := NormalizeId(raw);
            NormalizeId(k) == k <==> StripVendor(k) == k && !EndsWith(k, "-cloud")
  {
    var k := NormalizeId(raw);
    NormalizedIsClean(raw);
    assert Lowercase(k) == k;
    var s := StripVendor(k);
    assert Clean(s);
    CleanTail(s);
    assert |s| < |k| || s == k;
  }

  // ----- the index -----------------------------------------------------------------------

  type Index = map<string, seq<Upstream>>

  function IdOf(m: Upstream): string { m.id }

  /** Two models are one identity when their own ids normalise alike. */
  function IdentityOf(m: Upstream): string { NormalizeId(m.id) }

  function Bucket(index: Index, k: string): seq<Upstream> { if k in index then index[k] else [] }

  /** The ids a model is filed under. */
  function Raws(m: Upstream): seq<string> {
    (if m.id != "" then [m.id] else []) + if m.slug.Some? && m.slug.value != "" then [m.slug.value] else []
  }

  /** One of the first `n` of `raws` has the key `k`. */
  predicate FiledBy(raws: seq<string>, n: nat, norm: string -> string, k: string)
    requires n <= |raws|
  {
    exists i :: 0 <= i < n && norm(raws[i]) == k
  }

  function KeyedBy(k: string): Upstream -> bool { m => FiledBy(Raws(m), |Raws(m)|, NormalizeId, k) }

  /** The index answers every key as a scan of all the models would. */
  ghost predicate Indexes(index: Index, models: seq<Upstream>) {
    forall k :: Bucket(index, k) == Scanned(models, KeyedBy(k), IdOf)
  }

  method FileUnder(index: Index, k: string, m: Upstream) returns (r: Index)
    ensures forall j :: Bucket(r, j) == if j == k then AddOnce(Bucket(index, j), m, IdOf) else Bucket(index, j)
  {
    var bucket := if k in index then index[k] else [];
    if !Has(bucket, IdOf, m.id) { bucket := bucket + [m]; }
    r := index[k := bucket];
  }

  lemma AddOnceTwice(bucket: seq<Upstream>, m: Upstream)
    ensures AddOnce(AddOnce(bucket, m, IdOf), m, IdOf) == AddOnce(bucket, m, IdOf)
  {
    if !Has(bucket, IdOf, m.id) { assert IdOf((bucket + [m])[|bucket|]) == m.id; }
  }

  /** `r` is `index` after `m` was filed under the first `n` of `raws`. */
  ghost predicate Filed(index: Index, r: Index, m: Upstream, raws: seq<string>, n: nat, norm: string -> string)
    requires n <= |raws|
  {
    forall k ::
      Bucket(r, k) == if FiledBy(raws, n, norm, k) then AddOnce(Bucket(index, k), m, IdOf) else Bucket(index, k)
  }

  lemma FiledByOneMore(raws: seq<string>, n: nat, norm: string -> string, k: string)
    requires n < |raws|
    ensures FiledBy(raws, n + 1, norm, k) <==> FiledBy(raws, n, norm, k) || norm(raws[n]) == k
  {
  }

  /** One bucket, before and after `m` was filed under one more id. */
  lemma BucketOneMore(was: seq<Upstream>, before: seq<Upstream>,
    after: seq<Upstream>, m: Upstream, filed: bool, hit: bool)
    requires before == if filed then AddOnce(was, m, IdOf) else was
    requires after == if hit then AddOnce(before, m, IdOf) else before
    ensures after == if filed || hit then AddOnce(was, m, IdOf) else was
  {
    AddOnceTwice(was, m);
  }

  lemma FileOneMore(index: Index, before: Index, after: Index, m: Upstream,
    raws: seq<string>, n: nat, norm: string -> string)
    requires n < |raws| && Filed(index, before, m, raws, n, norm)
    requires forall j ::
               Bucket(after, j) == if j == norm(raws[n]) then AddOnce(Bucket(before, j), m, IdOf) else Bucket(before, j)
    ensures Filed(index, after, m, raws, n + 1, norm)
  {
    forall k
      ensures Bucket(after, k) ==
              if FiledBy(raws, n + 1, norm, k) then AddOnce(Bucket(index, k), m, IdOf) else Bucket(index, k)
    {
      FiledByOneMore(raws, n, norm, k);
      BucketOneMore(Bucket(index, k), Bucket(before, k), Bucket(after, k), m,
        FiledBy(raws, n, norm, k), norm(raws[n]) == k);
    }
  }

  method FileModel(index: Index, m: Upstream) returns (r: Index)
    ensures Filed(index, r, m, Raws(m), |Raws(m)|, NormalizeId)
  {
    var raws := Raws(m);
    r := index;
    for i := 0 to |raws|
      invariant Filed(index, r, m, raws, i, NormalizeId)
    {
      var next := FileUnder(r, NormalizeId(raws[i]), m);
      FileOneMore(index, r, next, m, raws, i, NormalizeId);
      r := next;
    }
  }

  method BuildIndex(models: seq<Upstream>) returns (index: Index)
    ensures Indexes(index, models)
  {
    index := map[];
    for i := 0 to |models|
      invariant Indexes(index, models[..i])
    {
      assert models[..i + 1][..i] == models[..i];
      index := FileModel(index, models[i]);
    }
    assert models[..|models|] == models;
  }

  // ----- the rules ---------------------------------------------------------------------------

  predicate LineBreak(c: char) { c in {'\n', '\r', '\U{2028}', '\U{2029}'} }

  predicate OneLine(s: string) { forall i | 0 <= i < |s| :: !LineBreak(s[i]) }

  /** `^(.*)-free$`. */
  function FreeBase(id: string): Option<string> {
    if EndsWith(id, "-free") && OneLine(id[..|id| - 5]) then Some(id[..|id| - 5]) else None
  }

  predicate Digits(s: string) { s != "" && forall i | 0 <= i < |s| :: IsDigit(s[i]) }

  /** `\d+(?:\.\d+)?[bm]`. */
  predicate IsSize(s: string) {
    s != "" && s[|s| - 1] in {'b', 'm'}
    && var number := s[..|s| - 1];
       var dot := Find(number, '.');
       Digits(number[..dot]) && (dot < |number| ==> Digits(number[dot + 1..]))
  }

  /** Where the last separator of a sized id is, or the length. */
  function LastSeparator(s: string): (r: nat)
    ensures r <= |s| && (r < |s| ==> s[r] in {':', '-'}) && forall i | r < i < |s| :: s[i] !in {':', '-'}
  {
    if s == "" then 0
    else if s[|s| - 1] in {':', '-'} then |s| - 1
    else
      var r := LastSeparator(s[..|s| - 1]);
      if r == |s| - 1 then |s| else r
  }

  datatype Sized = Sized(stem: string, size: string)

  /** `^(.+?)[:\-](\d+(?:\.\d+)?[bm])$`: a size holds no separator, so the one before it is the last. */
  function SizedParts(id: string): Option<Sized> {
    var p := LastSeparator(id);
    if 0 < p < |id| && OneLine(id[..p]) && IsSize(id[p + 1..]) then Some(Sized(id[..p], id[p + 1..])) else None
  }

  /** `size` between hyphens or the ends, starting at `i`. */
  predicate TokenAt(k: string, size: string, i: nat) {
    && i + |size| <= |k| && k[i..i + |size|] == size
    && (i == 0 || k[i - 1] == '-') && (i + |size| == |k| || k[i + |size|] == '-')
  }

  /** `(^|-)SIZE(-|$)`. */
  predicate HasToken(k: string, size: string) { exists i :: 0 <= i <= |k| && TokenAt(k, size, i) }

  function Dashless(k: string): string {
    if k == "" then "" else Dashless(k[..|k| - 1]) + if k[|k| - 1] == '-' then "" else [k[|k| - 1]]
  }

  predicate SizeHit(m: Upstream, sized: Sized) {
    var k := NormalizeId(m.id);
    HasToken(k, sized.size) && Dashless(NormalizeId(sized.stem)) <= Dashless(k)
  }

  /** Which models a rule, tried on a catalog id without its vendor, matches. */
  function Matches(rule: Rule, id: string): Upstream -> bool {
    match rule
    case Exact => KeyedBy(NormalizeId(id))
    case FreeVariant => if FreeBase(id).Some? then KeyedBy(NormalizeId(FreeBase(id).value)) else _ => false
    case ExactSize => if SizedParts(id).Some? then m => SizeHit(m, SizedParts(id).value) else _ => false
    case Overlay => _ => false
  }

  lemma OwnKeys(m: Upstream, k: string)
    requires m.id != ""
    ensures KeyedBy(k)(m) <==>
            NormalizeId(m.id) == k || (m.slug.Some? && m.slug.value != "" && NormalizeId(m.slug.value) == k)
  {
    var raws := Raws(m);
    assert raws[0] == m.id;
    if m.slug.Some? && m.slug.value != "" { assert raws[1] == m.slug.value; }
  }

  /**
   Asked for the very id of a model, the exact rule matches that model exactly
   when the id has no second vendor or the model's slug has the key looked for.
   */
  lemma ExactFindsItsOwnExactly(m: Upstream)
    requires m.id != ""
    ensures Matches(Exact, StripVendor(m.id))(m) <==>
            || StripVendor(StripVendor(m.id)) == StripVendor(m.id)
            || (m.slug.Some? && m.slug.value != "" && NormalizeId(m.slug.value) == NormalizeId(StripVendor(m.id)))
  {
    OwnKeys(m, NormalizeId(StripVendor(m.id)));
    VendorDroppedTwiceExactly(m.id);
  }

  /** Of `a/b/c` the rule looks for `c`: it misses the model of that id, and finds it by its slug `c`. */
  lemma ExactMissesItsOwn()
    ensures !Matches(Exact, StripVendor("a/b/c"))(Upstream("a/b/c", None))
    ensures Matches(Exact, StripVendor("a/b/c"))(Upstream("a/b/c", Some("c")))
  {
    FindAt("a/b/c", '/', 1);
    FindAt("b/c", '/', 1);
    ExactFindsItsOwnExactly(Upstream("a/b/c", None));
    ExactFindsItsOwnExactly(Upstream("a/b/c", Some("c")));
    VendorDroppedTwiceExactly("b/c");
  }

  /** What it turns up: the index lists a model's id once, the filter on sizes each time. */
  function HitsOf(rule: Rule, id: string, models: seq<Upstream>): seq<Upstream> {
    if rule == ExactSize then Filtered(models, Matches(rule, id)) else Scanned(models, Matches(rule, id), IdOf)
  }

  method DistinctIdentities(hits: seq<Upstream>) returns (r: seq<Upstream>)
    ensures r == Firsts(hits, IdentityOf)
  {
    var seen: set<string> := {};
    r := [];
    for i := 0 to |hits|
      invariant r == Firsts(hits[..i], IdentityOf) && seen == Keys(r, IdentityOf)
    {
      assert hits[..i + 1][..i] == hits[..i];
      var key := IdentityOf(hits[i]);
      if key !in seen {
        KeysAppend(r, hits[i], IdentityOf);
        seen := seen + {key};
        r := r + [hits[i]];
      }
    }
    assert hits[..|hits|] == hits;
  }

  function Ids(ms: seq<Upstream>): seq<string> { seq(|ms|, i requires 0 <= i < |ms| => ms[i].id) }

  /** A rule's verdict on its hits; none when there are none. */
  function Decided(rule: Rule, hits: seq<Upstream>, key: Upstream -> string): Option<Resolution> {
    var d := Firsts(hits, key);
    if d == [] then None
    else if |d| > 1 then Some(Ambiguous(Ids(d)))
    else Some(Resolved(rule, d[0].id, [d[0].id]))
  }

  method Decide(rule: Rule, hits: seq<Upstream>) returns (r: Option<Resolution>)
    ensures r == Decided(rule, hits, IdentityOf)
  {
    var distinct := DistinctIdentities(hits);
    if |distinct| == 0 { return None; }
    if |distinct| > 1 { return Some(Ambiguous(Ids(distinct))); }
    return Some(Resolved(rule, distinct[0].id, [distinct[0].id]));
  }

  method FilterSized(all: seq<Upstream>, sized: Sized) returns (hits: seq<Upstream>)
    ensures hits == Filtered(all, m => SizeHit(m, sized))
  {
    hits := [];
    for i := 0 to |all|
      invariant hits == Filtered(all[..i], m => SizeHit(m, sized))
    {
      assert all[..i + 1][..i] == all[..i];
      if SizeHit(all[i], sized) { hits := hits + [all[i]]; }
    }
    assert all[..|all|] == all;
  }

  /** A reviewed mapping for the raw id, or else for the id without its vendor. */
  function Pinned(rawId: string, overlay: map<string, string>): string {
    if rawId in overlay then overlay[rawId]
    else if StripVendor(rawId) in overlay then overlay[StripVendor(rawId)]
    else ""
  }

  function ByRules(id: string, models: seq<Upstream>): Resolution {
    var exact := Decided(Exact, HitsOf(Exact, id, models), IdentityOf);
    var free := Decided(FreeVariant, HitsOf(FreeVariant, id, models), IdentityOf);
    var size := Decided(ExactSize, HitsOf(ExactSize, id, models), IdentityOf);
    if exact.Some? then exact.value
    else if free.Some? then free.value
    else if size.Some? then size.value
    else Unresolved
  }

  function Verdict(rawId: string, models: seq<Upstream>, overlay: map<string, string>): Resolution {
    var pinned := Pinned(rawId, overlay);
    if pinned != "" then (if Has(models, IdOf, pinned) then Resolved(Overlay, pinned, [pinned]) else Unresolved)
    else ByRules(StripVendor(rawId), models)
  }

  /** The hits of a rule, found through the index. */
  method LookUp(rule: Rule, id: string, index: Index, all: seq<Upstream>) returns (hits: seq<Upstream>)
    requires Indexes(index, all)
    ensures hits == HitsOf(rule, id, all)
  {
    match rule {
      case Exact => hits := Bucket(index, NormalizeId(id));
      case FreeVariant =>
        var base := FreeBase(id);
        if base.Some? {
          hits := Bucket(index, NormalizeId(base.value));
        } else {
          hits := [];
          NoHits(all, Matches(rule, id), IdOf);
        }
      case ExactSize =>
        var sized := SizedParts(id);
        if sized.Some? {
          hits := FilterSized(all, sized.value);
          FilteringAgrees(all, m => SizeHit(m, sized.value), Matches(ExactSize, id));
        } else {
          hits := [];
          NoHits(all, Matches(rule, id), IdOf);
        }
      case Overlay =>
        hits := [];
        NoHits(all, Matches(rule, id), IdOf);
    }
  }

  method ResolveIdentity(rawId: string, index: Index, all: seq<Upstream>, overlay: map<string, string>)
    returns (r: Resolution)
    requires Indexes(index, all)
    ensures r == Verdict(rawId, all, overlay)
  {
    var id := StripVendor(rawId);
    var pinned := Pinned(rawId, overlay);
    if pinned != "" {
      return if Has(all, IdOf, pinned) then Resolved(Overlay, pinned, [pinned]) else Unresolved;
    }
    var hits := LookUp(Exact, id, index, all);
    var exact := Decide(Exact, hits);
    if exact.Some? { return exact.value; }
    hits := LookUp(FreeVariant, id, index, all);
    var free := Decide(FreeVariant, hits);
    if free.Some? { return free.value; }
    hits := LookUp(ExactSize, id, index, all);
    var size := Decide(ExactSize, hits);
    if size.Some? { return size.value; }
    r := Unresolved;
  }

  // ----- the verdict follows the evidence --------------------------------------------------------

  /** The identities a rule has evidence for: those of every model it matches, whatever the order. */
  ghost function EvidenceFor(rule: Rule, id: string, models: seq<Upstream>): set<string> {
    Seen(models, Matches(rule, id), IdentityOf)
  }

  lemma HitsAreEvidence(rule: Rule, id: string, models: seq<Upstream>)
    ensures Keys(HitsOf(rule, id, models), IdentityOf) == EvidenceFor(rule, id, models)
    ensures forall m | m in HitsOf(rule, id, models) :: m in models && Matches(rule, id)(m)
  {
    if rule == ExactSize {
      FilteringSees(models, Matches(rule, id), IdentityOf);
    } else {
      ScanningSees(models, Matches(rule, id), IdOf, IdentityOf);
    }
  }

  function Named(ids: seq<string>, norm: string -> string): set<string> { set i | 0 <= i < |ids| :: norm(ids[i]) }

  /** One identity is bound; more are listed, once each. */
  ghost predicate Follows(r: Resolution, rule: Rule, evidence: set<string>, norm: string -> string) {
    match r
    case Resolved(rule1, target, candidates) => rule1 == rule && candidates == [target] && evidence == {norm(target)}
    case Ambiguous(candidates) => |candidates| > 1 && |candidates| == |evidence| && Named(candidates, norm) == evidence
    case Unresolved => false
  }

  lemma NamedIds(ms: seq<Upstream>, key: Upstream -> string, norm: string -> string)
    requires forall m: Upstream :: key(m) == norm(m.id)
    ensures Named(Ids(ms), norm) == Keys(ms, key)
  {
    forall i | 0 <= i < |ms| ensures key(ms[i]) in Named(Ids(ms), norm) && norm(Ids(ms)[i]) in Keys(ms, key) {
      assert Ids(ms)[i] == ms[i].id;
    }
  }

  lemma HitsDecide(rule: Rule, hits: seq<Upstream>, key: Upstream -> string, norm: string -> string)
    requires forall m: Upstream :: key(m) == norm(m.id)
    ensures Decided(rule, hits, key).None? <==> Keys(hits, key) == {}
    ensures Decided(rule, hits, key).Some? ==> Follows(Decided(rule, hits, key).value, rule, Keys(hits, key), norm)
    ensures Decided(rule, hits, key).Some? && Decided(rule, hits, key).value.Resolved? ==>
              exists m :: m in hits && m.id == Decided(rule, hits, key).value.target
  {
    var d := Firsts(hits, key);
    FirstsKeepKeys(hits, key);
    NamedIds(d, key, norm);
    if d != [] {
      assert d[0] in hits;
      FirstKey(d, key);
    }
  }

  lemma DecisionFollows(rule: Rule, id: string, models: seq<Upstream>)
    ensures Decided(rule, HitsOf(rule, id, models), IdentityOf).None? <==> EvidenceFor(rule, id, models) == {}
    ensures Decided(rule, HitsOf(rule, id, models), IdentityOf).Some? ==>
              Follows(Decided(rule, HitsOf(rule, id, models), IdentityOf).value, rule,
                EvidenceFor(rule, id, models), NormalizeId)
  {
    HitsAreEvidence(rule, id, models);
    HitsDecide(rule, HitsOf(rule, id, models), IdentityOf, NormalizeId);
  }

  /** The first rule with any evidence. */
  ghost function Deciding(id: string, models: seq<Upstream>): Option<Rule> {
    if EvidenceFor(Exact, id, models) != {} then Some(Exact)
    else if EvidenceFor(FreeVariant, id, models) != {} then Some(FreeVariant)
    else if EvidenceFor(ExactSize, id, models) != {} then Some(ExactSize)
    else None
  }

  /** A bound target is one of the models the rule matched. */
  ghost predicate BindsAMatch(r: Resolution, rule: Rule, id: string, models: seq<Upstream>) {
    r.Resolved? ==> exists m :: m in models && Matches(rule, id)(m) && m.id == r.target
  }

  lemma DecisionBindsAMatch(rule: Rule, id: string, models: seq<Upstream>)
    requires Decided(rule, HitsOf(rule, id, models), IdentityOf).Some?
    ensures BindsAMatch(Decided(rule, HitsOf(rule, id, models), IdentityOf).value, rule, id, models)
  {
    HitsAreEvidence(rule, id, models);
    HitsDecide(rule, HitsOf(rule, id, models), IdentityOf, NormalizeId);
  }

  /**
   The first rule that has any evidence decides, and decides by it alone: a
   resolved id means every model the rule matched has the target's identity,
   an ambiguous one means it matched more than one.
   */
  lemma FirstEvidenceDecides(id: string, models: seq<Upstream>)
    ensures ByRules(id, models) == Unresolved <==> Deciding(id, models).None?
    ensures Deciding(id, models).Some? ==>
              && Follows(ByRules(id, models), Deciding(id, models).value,
                EvidenceFor(Deciding(id, models).value, id, models), NormalizeId)
              && BindsAMatch(ByRules(id, models), Deciding(id, models).value, id, models)
  {
    DecisionFollows(Exact, id, models);
    DecisionFollows(FreeVariant, id, models);
    DecisionFollows(ExactSize, id, models);
    if Deciding(id, models).Some? { DecisionBindsAMatch(Deciding(id, models).value, id, models); }
  }

  /** The same status, and the same identities behind it. */
  ghost predicate SameVerdict(a: Resolution, b: Resolution, norm: string -> string) {
    match (a, b)
    case (Resolved(r, s, _), Resolved(t, u, _)) => r == t && norm(s) == norm(u)
    case (Ambiguous(s), Ambiguous(t)) => Named(s, norm) == Named(t, norm) && |s| == |t|
    case (Unresolved, Unresolved) => true
    case _ => false
  }

  lemma FollowersAgree(r: Resolution, s: Resolution, rule: Rule, evidence: set<string>, norm: string -> string)
    requires Follows(r, rule, evidence, norm) && Follows(s, rule, evidence, norm)
    ensures SameVerdict(r, s, norm)
  {
    if r.Resolved? && s.Resolved? {
      assert norm(r.target) in {norm(s.target)};
    }
  }

  lemma RulesAreOrderFree(id: string, a: seq<Upstream>, b: seq<Upstream>)
    requires SameElements(a, b)
    ensures SameVerdict(ByRules(id, a), ByRules(id, b), NormalizeId)
  {
    SeenIsOrderFree(a, b, Matches(Exact, id), IdentityOf);
    SeenIsOrderFree(a, b, Matches(FreeVariant, id), IdentityOf);
    SeenIsOrderFree(a, b, Matches(ExactSize, id), IdentityOf);
    FirstEvidenceDecides(id, a);
    FirstEvidenceDecides(id, b);
    if Deciding(id, a).Some? {
      var rule := Deciding(id, a).value;
      FollowersAgree(ByRules(id, a), ByRules(id, b), rule, EvidenceFor(rule, id, a), NormalizeId);
    }
  }

  /** Listing the upstream models in another order, or some of them twice, changes no verdict. */
  lemma ResolutionIsOrderFree(rawId: string, a: seq<Upstream>, b: seq<Upstream>, overlay: map<string, string>)
    requires SameElements(a, b)
    ensures SameVerdict(Verdict(rawId, a, overlay), Verdict(rawId, b, overlay), NormalizeId)
  {
    if Pinned(rawId, overlay) == "" {
      RulesAreOrderFree(StripVendor(rawId), a, b);
    } else {
      HasIsOrderFree(a, b, IdOf, Pinned(rawId, overlay));
    }
  }

  // ----- sizes are whole tokens ---------------------------------------------------------------------

  /** The pieces between hyphens. */
  function Tokens(k: string): seq<string>
    decreases |k|
  {
    var p := Find(k, '-');
    if p == |k| then [k] else [k[..p]] + Tokens(k[p + 1..])
  }

  lemma {:induction false} TokensAreDelimited(k: string, size: string)
    requires '-' !in size
    ensures HasToken(k, size) <==> size in Tokens(k)
    decreases |k|
  {
    var p := Find(k, '-');
    if p == |k| {
      if HasToken(k, size) {
        var i :| 0 <= i <= |k| && TokenAt(k, size, i);
        assert k[..] == k;
      }
      if size == k { assert TokenAt(k, size, 0); }
    } else {
      TokensAreDelimited(k[p + 1..], size);
      TokenShifts(k, size, p);
    }
  }

  lemma TokenShifts(k: string, size: string, p: nat)
    requires '-' !in size && p < |k| && p == Find(k, '-')
    ensures HasToken(k, size) <==> size == k[..p] || HasToken(k[p + 1..], size)
  {
    if HasToken(k, size) { TokenIsFirstOrLater(k, size, p); }
    if size == k[..p] { assert TokenAt(k, size, 0); }
    if HasToken(k[p + 1..], size) { LaterTokenIsToken(k, size, p); }
  }

  lemma TokenIsFirstOrLater(k: string, size: string, p: nat)
    requires '-' !in size && p < |k| && p == Find(k, '-') && HasToken(k, size)
    ensures size == k[..p] || HasToken(k[p + 1..], size)
  {
    var i :| 0 <= i <= |k| && TokenAt(k, size, i);
    if i == 0 { FirstToken(k, size, p); } else { TokenIsLater(k, size, p, i); }
  }

  lemma TokenIsLater(k: string, size: string, p: nat, i: nat)
    requires p < |k| && p == Find(k, '-') && 0 < i && TokenAt(k, size, i)
    ensures HasToken(k[p + 1..], size)
  {
    assert k[i - 1] == '-';
    LaterToken(k, size, p, i - p - 1);
  }

  lemma LaterTokenIsToken(k: string, size: string, p: nat)
    requires p < |k| && p == Find(k, '-') && HasToken(k[p + 1..], size)
    ensures HasToken(k, size)
  {
    var i :| 0 <= i <= |k[p + 1..]| && TokenAt(k[p + 1..], size, i);
    LaterToken(k, size, p, i);
    assert TokenAt(k, size, i + p + 1);
  }

  lemma FirstToken(k: string, size: string, p: nat)
    requires '-' !in size && p < |k| && p == Find(k, '-') && TokenAt(k, size, 0)
    ensures size == k[..p]
  {
    assert forall i | 0 <= i < |size| :: size[i] == k[i];
    assert k[p] == '-';
  }

  lemma LaterToken(k: string, size: string, p: nat, i: nat)
    requires p < |k| && k[p] == '-' && i + p + 1 <= |k|
    ensures TokenAt(k, size, i + p + 1) <==> TokenAt(k[p + 1..], size, i)
  {
    var rest, q := k[p + 1..], i + p + 1;
    assert |rest| == |k| - (p + 1) && (i > 0 ==> rest[i - 1] == k[q - 1]);
    if i + |size| <= |rest| {
      assert rest[i..i + |size|] == k[q..q + |size|];
      assert i + |size| < |rest| ==> rest[i + |size|] == k[q + |size|];
    }
  }

  /**
   `stem:SIZE` binds only to a model one of whose own hyphen-delimited tokens is
   SIZE: 20b is not a token of a name that says 120b.
   */
  lemma ExactSizeIsAWholeToken(rawId: string, models: seq<Upstream>, overlay: map<string, string>)
    requires Verdict(rawId, models, overlay).Resolved? && Verdict(rawId, models, overlay).rule == ExactSize
    ensures SizedParts(StripVendor(rawId)).Some?
    ensures SizedParts(StripVendor(rawId)).value.size in Tokens(NormalizeId(Verdict(rawId, models, overlay).target))
  {
    var id := StripVendor(rawId);
    FirstEvidenceDecides(id, models);
    var m :| m in models && Matches(ExactSize, id)(m) && m.id == Verdict(rawId, models, overlay).target;
    MatchOwnsTheSize(id, m);
  }

  lemma MatchOwnsTheSize(id: string, m: Upstream)
    requires Matches(ExactSize, id)(m)
    ensures SizedParts(id).Some? && SizedParts(id).value.size in Tokens(NormalizeId(m.id))
  {
    SizesHaveNoHyphen(SizedParts(id).value.size);
    TokensAreDelimited(NormalizeId(m.id), SizedParts(id).value.size);
  }

  lemma TokensComeFromTheKey(k: string, size: string, c: char)
    requires HasToken(k, size) && c in size
    ensures c in k
  {
    var j :| 0 <= j <= |k| && TokenAt(k, size, j);
    var d :| 0 <= d < |size| && size[d] == c;
    assert k[j..j + |size|][d] == k[j + d];
  }

  /** A decimal size never binds by this rule: normalising turns its point into a hyphen. */
  lemma DecimalSizesNeverBind(id: string, m: Upstream)
    requires SizedParts(id).Some? && '.' in SizedParts(id).value.size
    ensures !Matches(ExactSize, id)(m)
  {
    var k, size := NormalizeId(m.id), SizedParts(id).value.size;
    NormalizedIsClean(m.id);
    assert '.' !in k;
    assert HasToken(k, size) ==> '.' in k by {
      if HasToken(k, size) { TokensComeFromTheKey(k, size, '.'); }
    }
  }

  lemma SizesHaveNoHyphen(size: string)
    requires IsSize(size)
    ensures '-' !in size
  {
    var number, last := size[..|size| - 1], size[|size| - 1];
    var dot := Find(number, '.');
    assert size == number + [last];
    forall i | 0 <= i < |number| ensures number[i] != '-' {
      if i < dot { assert IsDigit(number[..dot][i]); }
      if i > dot { assert IsDigit(number[dot + 1..][i - dot - 1]); }
    }
  }

  /**
   The sized rule matches a model exactly when the size has no point, is one of
   the model's own tokens, and the model's name without hyphens starts with the
   stem's.
   */
  lemma SizedRuleExactly(id: string, m: Upstream)
    requires SizedParts(id).Some?
    ensures Matches(ExactSize, id)(m) <==>
            var sized, k := SizedParts(id).value, NormalizeId(m.id);
            && '.' !in sized.size
            && sized.size in Tokens(k)
            && Dashless(NormalizeId(sized.stem)) <= Dashless(k)
  {
    var sized := SizedParts(id).value;
    SizesHaveNoHyphen(sized.size);
    TokensAreDelimited(NormalizeId(m.id), sized.size);
    if '.' in sized.size { DecimalSizesNeverBind(id, m); }
  }
}
