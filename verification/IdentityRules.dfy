/**
 What the resolver's rules mean, told on the spelling of ids: which spellings
 share a key, which models a rule matches, and what becomes of its matches.
 */
module IdentityRules {
  import opened Characters
  import opened Evidence
  import opened Identity
  import opened Wrappers

  // ----- spellings of one name -----------------------------------------------------------

  predicate IsPlan(x: string) {
    x in {":free", ":beta", ":extended", ":batch", ":thinking", ":online", ":nitro", ":floor"}
  }

  predicate IsCloud(x: string) { x in {":cloud", "-cloud"} }

  predicate Ends(s: string, x: string) { |x| <= |s| && s[|s| - |x|..] == x }

  /** Small letters, and one mark for four. */
  function Spelled(s: string): string {
    seq(|s|, i requires 0 <= i < |s| =>
      if s[i] in {'.', '_', '-', ':'} then '-' else if 'A' <= s[i] <= 'Z' then s[i] - 'A' + 'a' else s[i])
  }

  /** A name with nothing to drop: no vendor in front, no plan or cloud mark behind. */
  ghost predicate IsBareName(s: string) {
    && '/' !in s
    && forall x | IsPlan(x) || IsCloud(x) :: !Ends(Lowercase(s), x)
  }

  lemma {:induction false} StripsFirst(s: string, xs: seq<string>, k: nat)
    requires k < |xs| && EndsWith(s, xs[k]) && forall j | 0 <= j < k :: !EndsWith(s, xs[j])
    ensures StripAny(s, xs) == s[..|s| - |xs[k]|]
  {
    if k > 0 {
      assert xs[0] == xs[0] && forall j | 0 <= j < k - 1 :: xs[1..][j] == xs[j + 1];
      StripsFirst(s, xs[1..], k - 1);
    }
  }

  lemma {:induction false} StripsNone(s: string, xs: seq<string>)
    requires forall j | 0 <= j < |xs| :: !EndsWith(s, xs[j])
    ensures StripAny(s, xs) == s
  {
    if xs != [] { StripsNone(s, xs[1..]); }
  }

  /** Two marks whose last two letters differ do not end the same word. */
  lemma NotBoth(s: string, x: string, y: string)
    requires Ends(s, x) && |x| >= 2 && |y| >= 2 && x[|x| - 2..] != y[|y| - 2..]
    ensures !Ends(s, y)
  {
    TailOfTail(s, x);
    if Ends(s, y) { TailOfTail(s, y); }
  }

  lemma TailOfTail(s: string, x: string)
    requires Ends(s, x) && |x| >= 2
    ensures s[|s| - 2..] == x[|x| - 2..]
  {
    assert s[|s| - |x|..][|x| - 2..] == s[|s| - 2..];
  }

  lemma PlanTails(i: nat, j: nat)
    requires i < j < |VARIANTS|
    ensures |VARIANTS[i]| >= 2 && |VARIANTS[j]| >= 2
    ensures VARIANTS[i][|VARIANTS[i]| - 2..] != VARIANTS[j][|VARIANTS[j]| - 2..]
  {
    Tail2(0, "ee");
    Tail2(1, "ta");
    Tail2(2, "ed");
    Tail2(3, "ch");
    Tail2(4, "ng");
    Tail2(5, "ne");
    Tail2(6, "ro");
    Tail2(7, "or");
  }

  lemma Tail2(i: nat, x: string)
    requires i < |VARIANTS| && |VARIANTS[i]| >= 2 && |x| == 2
    requires x[0] == VARIANTS[i][|VARIANTS[i]| - 2] && x[1] == VARIANTS[i][|VARIANTS[i]| - 1]
    ensures VARIANTS[i][|VARIANTS[i]| - 2..] == x
  {
  }

  lemma PlansAreVariants(x: string)
    ensures IsPlan(x) <==> exists k :: 0 <= k < |VARIANTS| && VARIANTS[k] == x
  {
    if IsPlan(x) {
      assert VARIANTS[0] == ":free" && VARIANTS[1] == ":beta" && VARIANTS[2] == ":extended" && VARIANTS[3] == ":batch"
          && VARIANTS[4] == ":thinking" && VARIANTS[5] == ":online"
          && VARIANTS[6] == ":nitro" && VARIANTS[7] == ":floor";
    }
  }

  lemma PlanIsStripped(s: string, x: string)
    requires IsPlan(x)
    ensures StripAny(s + x, VARIANTS) == s
  {
    PlansAreVariants(x);
    var k :| 0 <= k < |VARIANTS| && VARIANTS[k] == x;
    assert (s + x)[|s|..] == x;
    forall j | 0 <= j < k ensures !EndsWith(s + x, VARIANTS[j]) {
      PlanTails(j, k);
      NotBoth(s + x, x, VARIANTS[j]);
    }
    StripsFirst(s + x, VARIANTS, k);
  }

  lemma CloudIsStripped(s: string, x: string)
    requires IsCloud(x)
    ensures StripAny(s + x, CLOUD) == s
  {
    assert (s + x)[|s|..] == x && CLOUD[0] == ":cloud" && CLOUD[1] == "-cloud";
    if x == CLOUD[1] {
      assert (s + x)[|s|] == '-' && CLOUD[0][0] == ':';
      StripsFirst(s + x, CLOUD, 1);
    } else {
      StripsFirst(s + x, CLOUD, 0);
    }
  }

  /** A plan mark is not a cloud mark, whatever is in front of it. */
  lemma CloudIsNoPlan(s: string, x: string)
    requires IsCloud(x)
    ensures StripAny(s + x, VARIANTS) == s + x
  {
    assert (s + x)[|s|..] == x && x[|x| - 2..] == "ud";
    forall j | 0 <= j < |VARIANTS| ensures !EndsWith(s + x, VARIANTS[j]) {
      assert VARIANTS[j][|VARIANTS[j]| - 2] != 'u';
      NotBoth(s + x, x, VARIANTS[j]);
    }
    StripsNone(s + x, VARIANTS);
  }

  lemma BareIsKept(s: string)
    requires forall x | IsPlan(x) || IsCloud(x) :: !Ends(s, x)
    ensures StripAny(s, VARIANTS) == s && StripAny(s, CLOUD) == s
  {
    forall j | 0 <= j < |VARIANTS| ensures !EndsWith(s, VARIANTS[j]) {
      PlansAreVariants(VARIANTS[j]);
      assert !Ends(s, VARIANTS[j]);
    }
    StripsNone(s, VARIANTS);
    assert IsCloud(CLOUD[0]) && IsCloud(CLOUD[1]);
    StripsNone(s, CLOUD);
  }

  lemma LowercaseAppends(a: string, b: string)
    ensures Lowercase(a + b) == Lowercase(a) + Lowercase(b)
  {
  }

  lemma MarksAreSmall(x: string)
    requires IsPlan(x) || IsCloud(x) || x == ""
    ensures Lowercase(x) == x && '/' !in x
  {
    assert forall i | 0 <= i < |x| :: x[i] in {':', '-'} || 'a' <= x[i] <= 'z';
  }

  /** A vendor is everything to the first slash, and there must be some. */
  lemma VendorIsDropped(vendor: string, s: string)
    requires vendor != "" && '/' !in vendor
    ensures StripVendor(vendor + "/" + s) == s
  {
    var all := vendor + "/" + s;
    assert all[|vendor|] == '/' && all[..|vendor|] == vendor;
    FindAt(all, '/', |vendor|);
    assert all[|vendor| + 1..] == s;
  }

  lemma NoVendorIsDropped(s: string)
    requires '/' !in s || s[0] == '/'
    ensures StripVendor(s) == s
  {
    if Find(s, '/') < |s| { assert s[Find(s, '/')] in s; }
  }

  lemma TailIsSpelled(name: string, cloud: string, plan: string)
    requires IsBareName(name) && (cloud == "" || IsCloud(cloud)) && (plan == "" || IsPlan(plan))
    ensures Tail(Lowercase(name) + cloud + plan) == Spelled(name)
  {
    var small := Lowercase(name);
    BareIsKept(small);
    if plan != "" {
      PlanIsStripped(small + cloud, plan);
    } else {
      assert small + cloud + plan == small + cloud;
      if cloud != "" { CloudIsNoPlan(small, cloud); } else { assert small + cloud == small; }
    }
    if cloud != "" { CloudIsStripped(small, cloud); } else { assert small + cloud == small; }
    assert Separated(small) == Spelled(name);
  }

  lemma NoSlashInMarks(name: string, cloud: string, plan: string)
    requires '/' !in name && (cloud == "" || IsCloud(cloud)) && (plan == "" || IsPlan(plan))
    ensures Lowercase(name + cloud + plan) == Lowercase(name) + cloud + plan
    ensures '/' !in Lowercase(name + cloud + plan)
  {
    LowercaseAppends(name + cloud, plan);
    LowercaseAppends(name, cloud);
    MarksAreSmall(cloud);
    MarksAreSmall(plan);
    NoNewSlash(name + cloud + plan);
  }

  lemma NoNewSlash(s: string)
    requires '/' !in s
    ensures '/' !in Lowercase(s)
  {
    assert forall i | 0 <= i < |s| :: Lowercase(s)[i] != '/';
  }

  lemma VendorIsDroppedInAnyLetters(vendor: string, s: string)
    requires vendor != "" && '/' !in vendor
    ensures StripVendor(Lowercase(vendor + "/" + s)) == Lowercase(s)
  {
    LowercaseAppends(vendor + "/", s);
    LowercaseAppends(vendor, "/");
    assert Lowercase("/") == "/";
    NoNewSlash(vendor);
    VendorIsDropped(Lowercase(vendor), Lowercase(s));
  }

  /**
   However a name is written, with any vendor in front, and any cloud mark and
   then any plan mark behind, in any letters and with any separators, it has one
   key; and the key keeps every other character of the name.
   */
  lemma SpellingsShareAKey(vendor: string, name: string, cloud: string, plan: string)
    requires IsBareName(name) && (cloud == "" || IsCloud(cloud)) && (plan == "" || IsPlan(plan))
    ensures NormalizeId(name + cloud + plan) == Spelled(name)
    ensures vendor != "" && '/' !in vendor ==> NormalizeId(vendor + "/" + (name + cloud + plan)) == Spelled(name)
  {
    NoSlashInMarks(name, cloud, plan);
    TailIsSpelled(name, cloud, plan);
    NoVendorIsDropped(Lowercase(name + cloud + plan));
    if vendor != "" && '/' !in vendor { VendorIsDroppedInAnyLetters(vendor, name + cloud + plan); }
  }

  // ----- which models a rule matches -------------------------------------------------------

  /** Filed under this key, by its id or by its slug. */
  predicate IsKnownBy(m: Upstream, key: string) {
    || (m.id != "" && NormalizeId(m.id) == key)
    || (m.slug != None && m.slug.value != "" && NormalizeId(m.slug.value) == key)
  }

  lemma KnownByKey(m: Upstream, key: string)
    ensures KeyedBy(key)(m) <==> IsKnownBy(m, key)
  {
    var raws := Raws(m);
    if m.id != "" { assert raws[0] == m.id; }
    if m.slug.Some? && m.slug.value != "" { assert raws[|raws| - 1] == m.slug.value; }
  }

  lemma ExactMatches(id: string, m: Upstream)
    ensures Matches(Exact, id)(m) <==> IsKnownBy(m, NormalizeId(id))
  {
    KnownByKey(m, NormalizeId(id));
  }

  predicate IsOneLine(s: string) { forall c | c in s :: c !in {'\n', '\r', '\U{2028}', '\U{2029}'} }

  lemma OneLineExactly(s: string)
    ensures OneLine(s) <==> IsOneLine(s)
  {
    if OneLine(s) {
      forall c | c in s ensures c !in {'\n', '\r', '\U{2028}', '\U{2029}'} {
        var i :| 0 <= i < |s| && s[i] == c;
      }
    }
    if IsOneLine(s) {
      forall i | 0 <= i < |s| ensures !LineBreak(s[i]) { assert s[i] in s; }
    }
  }

  predicate IsFreeOf(id: string, base: string) { id == base + "-free" && IsOneLine(base) }

  lemma FreeBaseExactly(id: string, base: string)
    ensures FreeBase(id) == Some(base) <==> IsFreeOf(id, base)
  {
    OneLineExactly(base);
    if EndsWith(id, "-free") { assert id == id[..|id| - 5] + "-free"; }
    if id == base + "-free" { assert id[|base|..] == "-free" && id[..|base|] == base; }
  }

  /** A plan mark `-free` is dropped from an id of one line; an id without it has no match by this rule. */
  lemma FreeMatches(id: string, m: Upstream)
    ensures Matches(FreeVariant, id)(m) <==> exists base :: IsFreeOf(id, base) && IsKnownBy(m, NormalizeId(base))
  {
    if FreeBase(id).Some? {
      FreeBaseExactly(id, FreeBase(id).value);
      KnownByKey(m, NormalizeId(FreeBase(id).value));
    }
    if base :| IsFreeOf(id, base) && IsKnownBy(m, NormalizeId(base)) { FreeBaseExactly(id, base); }
  }

  predicate AreDigits(s: string) { s != "" && forall c | c in s :: '0' <= c <= '9' }

  /** Digits, perhaps a point and digits, and a unit. */
  ghost predicate SpellsSize(size: string) {
    exists whole: string, part: string, unit: char :: IsSpelledAs(size, whole, part, unit)
  }

  predicate IsSpelledAs(size: string, whole: string, part: string, unit: char) {
    && AreDigits(whole) && unit in {'b', 'm'}
    && (part == "" || (|part| > 1 && part[0] == '.' && AreDigits(part[1..])))
    && size == whole + part + [unit]
  }

  lemma SizeIsSpelled(size: string)
    ensures IsSize(size) <==> SpellsSize(size)
  {
    if IsSize(size) { SizeTakenApart(size); }
    if whole: string, part: string, unit: char :| IsSpelledAs(size, whole, part, unit) {
      SpelledSize(whole, part, unit);
    }
  }

  lemma DigitsAre(s: string)
    ensures Digits(s) <==> AreDigits(s)
  {
    if Digits(s) {
      forall c | c in s ensures '0' <= c <= '9' {
        var i :| 0 <= i < |s| && s[i] == c;
      }
    }
    if AreDigits(s) {
      forall i | 0 <= i < |s| ensures IsDigit(s[i]) { assert s[i] in s; }
    }
  }

  lemma SizeTakenApart(size: string)
    requires IsSize(size)
    ensures SpellsSize(size)
  {
    var number, unit := size[..|size| - 1], size[|size| - 1];
    var dot := Find(number, '.');
    DigitsAre(number[..dot]);
    if dot < |number| {
      DigitsAre(number[dot + 1..]);
      assert number[dot..][1..] == number[dot + 1..];
      assert |number[dot + 1..]| > 0;
    }
    assert size == number[..dot] + number[dot..] + [unit];
    assert IsSpelledAs(size, number[..dot], number[dot..], unit);
  }

  lemma SpelledSize(whole: string, part: string, unit: char)
    requires IsSpelledAs(whole + part + [unit], whole, part, unit)
    ensures IsSize(whole + part + [unit])
  {
    var size, number := whole + part + [unit], whole + part;
    assert size[..|size| - 1] == number && number[..|whole|] == whole;
    DigitsAre(whole);
    if part == "" {
      assert number == whole;
      assert Find(whole, '.') == |whole|;
    } else {
      assert number[|whole|] == '.' && '.' !in whole;
      FindAt(number, '.', |whole|);
      DigitsAre(part[1..]);
      assert number[|whole| + 1..] == part[1..];
    }
  }

  lemma SizeHasNoSeparator(size: string)
    requires IsSize(size)
    ensures forall i | 0 <= i < |size| :: size[i] !in {':', '-'}
  {
    var number := size[..|size| - 1];
    var dot := Find(number, '.');
    forall i | 0 <= i < |number| ensures number[i] !in {':', '-'} {
      if i < dot { assert IsDigit(number[..dot][i]); }
      if i > dot { assert IsDigit(number[dot + 1..][i - dot - 1]); }
    }
    assert size == number + [size[|size| - 1]];
  }

  predicate IsSizedOf(id: string, stem: string, size: string) {
    stem != "" && IsOneLine(stem) && (id == stem + ":" + size || id == stem + "-" + size)
  }

  lemma SizedApart(id: string, stem: string, size: string)
    requires SizedParts(id) == Some(Sized(stem, size))
    ensures IsSizedOf(id, stem, size) && SpellsSize(size)
  {
    SizeIsSpelled(size);
    OneLineExactly(stem);
    var p := LastSeparator(id);
    assert id == id[..p] + [id[p]] + id[p + 1..];
  }

  lemma SizedTogether(id: string, stem: string, size: string)
    requires IsSizedOf(id, stem, size) && SpellsSize(size)
    ensures SizedParts(id) == Some(Sized(stem, size))
  {
    SizeIsSpelled(size);
    OneLineExactly(stem);
    SizeHasNoSeparator(size);
    SeparatorIsLast(id, stem, size);
  }

  lemma {:induction false} LastSeparatorAt(s: string, p: nat)
    requires p < |s| && s[p] in {':', '-'} && forall i | p < i < |s| :: s[i] !in {':', '-'}
    ensures LastSeparator(s) == p
  {
    if p < |s| - 1 { LastSeparatorAt(s[..|s| - 1], p); }
  }

  lemma SeparatorIsLast(id: string, stem: string, size: string)
    requires id == stem + ":" + size || id == stem + "-" + size
    requires forall i | 0 <= i < |size| :: size[i] !in {':', '-'}
    ensures LastSeparator(id) == |stem| && id[..|stem|] == stem && id[|stem| + 1..] == size
  {
    assert id[|stem|] in {':', '-'} && id[..|stem|] == stem && id[|stem| + 1..] == size;
    assert forall i | |stem| < i < |id| :: id[i] == size[i - |stem| - 1];
    LastSeparatorAt(id, |stem|);
  }

  /** An id is taken apart at the separator in front of its size, if it has both a stem and a size, in one line. */
  lemma SizedExactly(id: string, stem: string, size: string)
    ensures SizedParts(id) == Some(Sized(stem, size)) <==> IsSizedOf(id, stem, size) && SpellsSize(size)
  {
    if SizedParts(id) == Some(Sized(stem, size)) { SizedApart(id, stem, size); }
    if IsSizedOf(id, stem, size) && SpellsSize(size) { SizedTogether(id, stem, size); }
  }

  /** Without its hyphens. */
  lemma DashlessExactly(a: string, c: char)
    ensures Dashless(a + [c]) == Dashless(a) + if c == '-' then "" else [c]
    ensures Dashless("") == ""
  {
    assert (a + [c])[..|a|] == a;
  }

  // ----- what becomes of the matches ----------------------------------------------------------

  ghost predicate HasMatch(rule: Rule, id: string, models: seq<Upstream>) {
    exists m :: m in models && Matches(rule, id)(m)
  }

  /** All the models a rule matches are one identity. */
  ghost predicate MatchesAgree(rule: Rule, id: string, models: seq<Upstream>) {
    forall m, n | m in models && n in models && Matches(rule, id)(m) && Matches(rule, id)(n) ::
      NormalizeId(m.id) == NormalizeId(n.id)
  }

  lemma HasMatchExactly(rule: Rule, id: string, models: seq<Upstream>)
    ensures HasMatch(rule, id, models) <==> EvidenceFor(rule, id, models) != {}
  {
    if HasMatch(rule, id, models) {
      var m :| m in models && Matches(rule, id)(m);
      var i :| 0 <= i < |models| && models[i] == m;
      assert IdentityOf(models[i]) in EvidenceFor(rule, id, models);
    }
    if k :| k in EvidenceFor(rule, id, models) {
      var i :| 0 <= i < |models| && Matches(rule, id)(models[i]) && IdentityOf(models[i]) == k;
      assert models[i] in models;
    }
  }

  lemma AgreeingIsOne(rule: Rule, id: string, models: seq<Upstream>, k: string)
    requires EvidenceFor(rule, id, models) == {k}
    ensures MatchesAgree(rule, id, models)
  {
    forall m | m in models && Matches(rule, id)(m) ensures NormalizeId(m.id) == k {
      var i :| 0 <= i < |models| && models[i] == m;
      assert IdentityOf(models[i]) in EvidenceFor(rule, id, models);
    }
  }

  lemma AgreeingAtMostOne(rule: Rule, id: string, models: seq<Upstream>)
    requires MatchesAgree(rule, id, models)
    ensures forall k, l | k in EvidenceFor(rule, id, models) && l in EvidenceFor(rule, id, models) :: k == l
  {
    forall k, l | k in EvidenceFor(rule, id, models) && l in EvidenceFor(rule, id, models) ensures k == l {
      var i :| 0 <= i < |models| && Matches(rule, id)(models[i]) && IdentityOf(models[i]) == k;
      var j :| 0 <= j < |models| && Matches(rule, id)(models[j]) && IdentityOf(models[j]) == l;
      assert models[i] in models && models[j] in models;
    }
  }

  /** The first of `ms` that is hit. */
  predicate IsFirst<T(==)>(ms: seq<T>, hit: T -> bool, x: T) {
    exists i :: 0 <= i < |ms| && ms[i] == x && hit(ms[i]) && forall j | 0 <= j < i :: !hit(ms[j])
  }

  lemma FirstStays<T>(front: seq<T>, m: T, hit: T -> bool, x: T)
    requires IsFirst(front, hit, x)
    ensures IsFirst(front + [m], hit, x)
  {
    var i :| 0 <= i < |front| && front[i] == x && hit(front[i]) && forall j | 0 <= j < i :: !hit(front[j]);
    assert (front + [m])[i] == x && forall j | 0 <= j < i :: (front + [m])[j] == front[j];
  }

  lemma FirstNow<T>(front: seq<T>, m: T, hit: T -> bool)
    requires hit(m) && forall j | 0 <= j < |front| :: !hit(front[j])
    ensures IsFirst(front + [m], hit, m)
  {
    assert (front + [m])[|front|] == m;
  }

  lemma {:induction false} ScanFindsFirst<T>(ms: seq<T>, hit: T -> bool, id: T -> string)
    ensures Scanned(ms, hit, id) == [] ==> forall j | 0 <= j < |ms| :: !hit(ms[j])
    ensures Scanned(ms, hit, id) != [] ==> IsFirst(ms, hit, Scanned(ms, hit, id)[0])
  {
    if ms != [] {
      var front, m := ms[..|ms| - 1], ms[|ms| - 1];
      assert ms == front + [m];
      ScanFindsFirst(front, hit, id);
      if Scanned(front, hit, id) != [] { FirstStays(front, m, hit, Scanned(front, hit, id)[0]); }
      else if hit(m) { FirstNow(front, m, hit); }
    }
  }

  lemma {:induction false} FilterFindsFirst<T>(ms: seq<T>, hit: T -> bool)
    ensures Filtered(ms, hit) == [] ==> forall j | 0 <= j < |ms| :: !hit(ms[j])
    ensures Filtered(ms, hit) != [] ==> IsFirst(ms, hit, Filtered(ms, hit)[0])
  {
    if ms != [] {
      var front, m := ms[..|ms| - 1], ms[|ms| - 1];
      assert ms == front + [m];
      FilterFindsFirst(front, hit);
      if Filtered(front, hit) != [] { FirstStays(front, m, hit, Filtered(front, hit)[0]); }
      else if hit(m) { FirstNow(front, m, hit); }
    }
  }

  lemma HitsAreFirst(hits: seq<Upstream>, rule: Rule, id: string, models: seq<Upstream>)
    requires hits == HitsOf(rule, id, models)
    ensures hits != [] ==> IsFirst(models, Matches(rule, id), hits[0])
  {
    if rule == ExactSize {
      FilterFindsFirst(models, Matches(rule, id));
    } else {
      ScanFindsFirst(models, Matches(rule, id), IdOf);
    }
  }

  lemma {:induction false} FirstsKeepFirst(hits: seq<Upstream>, key: Upstream -> string)
    requires hits != []
    ensures Firsts(hits, key) != [] && Firsts(hits, key)[0] == hits[0]
  {
    if |hits| > 1 { FirstsKeepFirst(hits[..|hits| - 1], key); }
  }

  /** A decision by a rule's matches alone: the first of them if they are one identity, and otherwise several. */
  ghost predicate DecidesBy(d: Option<Resolution>, rule: Rule, id: string, models: seq<Upstream>) {
    if MatchesAgree(rule, id, models)
    then exists m :: IsFirst(models, Matches(rule, id), m) && d == Some(Resolved(rule, m.id, [m.id]))
    else d.Some? && d.value.Ambiguous?
  }

  /** A rule with a match decides, and by its matches alone. */
  lemma RuleDecides(rule: Rule, id: string, models: seq<Upstream>)
    requires HasMatch(rule, id, models)
    ensures DecidesBy(Decided(rule, HitsOf(rule, id, models), IdentityOf), rule, id, models)
  {
    var hits := HitsOf(rule, id, models);
    HasMatchExactly(rule, id, models);
    DecisionFollows(rule, id, models);
    HitsAreFirst(hits, rule, id, models);
    HitsBind(Decided(rule, hits, IdentityOf).value, hits, rule, id, models);
  }

  lemma HitsBind(r: Resolution, hits: seq<Upstream>, rule: Rule, id: string, models: seq<Upstream>)
    requires Some(r) == Decided(rule, hits, IdentityOf)
    requires hits != [] ==> IsFirst(models, Matches(rule, id), hits[0])
    requires Follows(r, rule, EvidenceFor(rule, id, models), NormalizeId)
    ensures DecidesBy(Some(r), rule, id, models)
  {
    if r.Resolved? {
      AgreeingIsOne(rule, id, models, NormalizeId(r.target));
      FirstsOfNone(hits, IdentityOf);
      FirstsKeepFirst(hits, IdentityOf);
    } else if MatchesAgree(rule, id, models) {
      AgreeingAtMostOne(rule, id, models);
      AtMostOneMember(EvidenceFor(rule, id, models));
    }
  }

  lemma FirstsOfNone(hits: seq<Upstream>, key: Upstream -> string)
    ensures hits == [] ==> Firsts(hits, key) == []
  {
  }

  lemma AtMostOneMember(s: set<string>)
    requires forall k, l | k in s && l in s :: k == l
    ensures |s| <= 1
  {
    if s != {} {
      var k :| k in s;
      assert s == {k};
    }
  }

  /** The reviewed mapping comes first: it binds a listed model or declines; an empty one is none. */
  lemma ReviewedFirst(rawId: string, models: seq<Upstream>, overlay: map<string, string>)
    ensures var id := StripVendor(rawId);
            var pinned := if rawId in overlay then overlay[rawId] else if id in overlay then overlay[id] else "";
            && (pinned != "" ==>
                  Verdict(rawId, models, overlay) ==
                  if exists m :: m in models && m.id == pinned then Resolved(Overlay, pinned, [pinned]) else Unresolved)
            && (pinned == "" ==> Verdict(rawId, models, overlay) == ByRules(id, models))
  {
    var pinned := Pinned(rawId, overlay);
    if Has(models, IdOf, pinned) {
      var i :| 0 <= i < |models| && IdOf(models[i]) == pinned;
      assert models[i] in models;
    }
    if m :| m in models && m.id == pinned {
      var i :| 0 <= i < |models| && models[i] == m;
      assert IdOf(models[i]) == pinned;
    }
  }

  /** Then the first of the three rules with a match decides; without any, nothing is bound. */
  lemma FirstMatchDecides(id: string, models: seq<Upstream>)
    ensures var exact, free, sized :=
              HasMatch(Exact, id, models), HasMatch(FreeVariant, id, models), HasMatch(ExactSize, id, models);
            && (exact ==> Some(ByRules(id, models)) == Decided(Exact, HitsOf(Exact, id, models), IdentityOf))
            && (!exact && free ==>
                  Some(ByRules(id, models)) == Decided(FreeVariant, HitsOf(FreeVariant, id, models), IdentityOf))
            && (!exact && !free && sized ==>
                  Some(ByRules(id, models)) == Decided(ExactSize, HitsOf(ExactSize, id, models), IdentityOf))
            && (!exact && !free && !sized ==> ByRules(id, models) == Unresolved)
  {
    NoMatchNoDecision(Exact, id, models);
    NoMatchNoDecision(FreeVariant, id, models);
    NoMatchNoDecision(ExactSize, id, models);
  }

  lemma NoMatchNoDecision(rule: Rule, id: string, models: seq<Upstream>)
    ensures Decided(rule, HitsOf(rule, id, models), IdentityOf).Some? <==> HasMatch(rule, id, models)
  {
    HasMatchExactly(rule, id, models);
    DecisionFollows(rule, id, models);
  }
}
