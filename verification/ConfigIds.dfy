// Stable identifiers for configuration entries: a readable slug, a number
// when two names collide, and no renumbering of what is already written.
module ConfigIds {
  import opened Wrappers

  const SLUG_MAX: nat := 48
  const FALLBACK_SLUG := "port"

  // ================ slugs

  /** ASCII lower case. */
  function Lower(c: char): char {
    if 'A' <= c <= 'Z' then (c as int + 32) as char else c
  }

  function LowerAll(s: string): (r: string)
    ensures |r| == |s| && forall i | 0 <= i < |s| :: r[i] == Lower(s[i])
  {
    seq(|s|, i requires 0 <= i < |s| => Lower(s[i]))
  }

  predicate Kept(c: char) {
    'a' <= c <= 'z' || '0' <= c <= '9'
  }

  /** The letters a to z and the digits, and nothing else. */
  lemma KeptIs(c: char)
    ensures Kept(c) <==> c in "abcdefghijklmnopqrstuvwxyz0123456789"
  {
    var kept := "abcdefghijklmnopqrstuvwxyz0123456789";
    if Kept(c) {
      var k := if 'a' <= c <= 'z' then c as int - 'a' as int else 26 + c as int - '0' as int;
      assert kept[k] == c;
    }
  }

  function SkipOthers(s: string): (r: string)
    ensures |r| <= |s| && (r != [] ==> Kept(r[0]))
  {
    if s == [] || Kept(s[0]) then s else SkipOthers(s[1..])
  }

  /** Every run of other characters becomes one hyphen. */
  function Collapse(s: string): string
    decreases |s|
  {
    if s == [] then []
    else if Kept(s[0]) then [s[0]] + Collapse(s[1..])
    else "-" + Collapse(SkipOthers(s[1..]))
  }

  function StripLeft(s: string): string {
    if s != [] && s[0] == '-' then StripLeft(s[1..]) else s
  }

  function StripRight(s: string): string {
    if s != [] && s[|s| - 1] == '-' then StripRight(s[..|s| - 1]) else s
  }

  function Take(s: string, n: nat): string {
    if |s| <= n then s else s[..n]
  }

  function Strip(s: string): string {
    StripRight(StripLeft(s))
  }

  /** The id a name makes. */
  function Slug(text: string): string {
    Strip(Take(Strip(Collapse(LowerAll(text))), SLUG_MAX))
  }

  /** Only kept characters and single hyphens between them. */
  predicate Hyphenated(s: string) {
    && (forall i | 0 <= i < |s| :: Kept(s[i]) || s[i] == '-')
    && (forall i | 0 <= i < |s| - 1 :: s[i] == '-' ==> s[i + 1] != '-')
  }

  predicate Clean(s: string) {
    Hyphenated(s) && (s != [] ==> s[0] != '-' && s[|s| - 1] != '-')
  }

  lemma {:induction false} CollapseHyphenates(s: string)
    ensures Hyphenated(Collapse(s))
    ensures s != [] && Kept(s[0]) ==> Collapse(s) != [] && Collapse(s)[0] == s[0]
    decreases |s|
  {
    if s != [] {
      if Kept(s[0]) {
        CollapseHyphenates(s[1..]);
      } else {
        CollapseHyphenates(SkipOthers(s[1..]));
      }
    }
  }

  lemma {:induction false} StripLeftCleans(s: string)
    requires Hyphenated(s)
    ensures Hyphenated(StripLeft(s)) && |StripLeft(s)| <= |s|
    ensures StripLeft(s) != [] ==> StripLeft(s)[0] != '-'
  {
    if s != [] && s[0] == '-' {
      StripLeftCleans(s[1..]);
    }
  }

  lemma {:induction false} StripRightCleans(s: string)
    requires Hyphenated(s) && (s != [] ==> s[0] != '-')
    ensures Clean(StripRight(s)) && |StripRight(s)| <= |s|
  {
    if s != [] && s[|s| - 1] == '-' {
      StripRightCleans(s[..|s| - 1]);
    }
  }

  lemma StripCleans(s: string)
    requires Hyphenated(s)
    ensures Clean(Strip(s)) && |Strip(s)| <= |s|
  {
    StripLeftCleans(s);
    StripRightCleans(StripLeft(s));
  }

  /** A slug is clean and short enough. */
  lemma SlugIsClean(text: string)
    ensures Clean(Slug(text)) && |Slug(text)| <= SLUG_MAX
  {
    var s := Collapse(LowerAll(text));
    CollapseHyphenates(LowerAll(text));
    StripCleans(s);
    StripCleans(Take(Strip(s), SLUG_MAX));
  }

  lemma {:induction false} CollapseKeepsHyphenated(s: string)
    requires Hyphenated(s)
    ensures Collapse(s) == s
  {
    if s != [] {
      CollapseKeepsHyphenated(s[1..]);
      if s[0] == '-' {
        assert SkipOthers(s[1..]) == s[1..];
        assert "-" + s[1..] == s;
      }
    }
  }

  /** The names a slug leaves alone are exactly the clean, short ones. */
  lemma SlugFixpoint(text: string)
    ensures Slug(text) == text <==> Clean(text) && |text| <= SLUG_MAX
  {
    if Slug(text) == text {
      SlugIsClean(text);
    }
    if Clean(text) && |text| <= SLUG_MAX {
      assert LowerAll(text) == text;
      CollapseKeepsHyphenated(text);
      StripTrailing(text, "");
      assert text + "" == text && Strip(text) == text;
    }
  }

  lemma SlugIdempotent(text: string)
    ensures Slug(Slug(text)) == Slug(text)
  {
    SlugIsClean(text);
    SlugFixpoint(Slug(text));
  }

  // ---- what a slug says: the words of the name

  /** The runs of kept characters. */
  function Words(s: string): (words: seq<string>)
    ensures s != [] && Kept(s[0]) ==> words != []
  {
    if s == [] then []
    else if !Kept(s[0]) then Words(s[1..])
    else
      var rest := Words(s[1..]);
      if |s| > 1 && Kept(s[1]) then [[s[0]] + rest[0]] + rest[1..] else [[s[0]]] + rest
  }

  predicate IsWord(w: string) {
    w != "" && forall i | 0 <= i < |w| :: Kept(w[i])
  }

  function Hyphens(words: seq<string>): string {
    if words == [] then "" else if |words| == 1 then words[0] else words[0] + "-" + Hyphens(words[1..])
  }

  lemma {:induction false} WordsSkip(s: string)
    ensures Words(SkipOthers(s)) == Words(s)
    ensures SkipOthers(s) != [] ==> s[|s| - 1] == SkipOthers(s)[|SkipOthers(s)| - 1]
  {
    if s != [] && !Kept(s[0]) {
      WordsSkip(s[1..]);
    }
  }

  /** A hyphen where the name starts, or ends, with something else. */
  function Lead(s: string): string {
    if s != [] && !Kept(s[0]) then "-" else ""
  }

  function Trail(s: string): string {
    if Words(s) != [] && s != [] && !Kept(s[|s| - 1]) then "-" else ""
  }

  lemma {:induction false} CollapseIsWords(s: string)
    ensures Collapse(s) == Lead(s) + (Hyphens(Words(s)) + Trail(s))
    decreases |s|
  {
    if s != [] {
      var rest := s[1..];
      if Kept(s[0]) {
        CollapseIsWords(rest);
        LetterFirst(s);
      } else {
        var next := SkipOthers(rest);
        WordsSkip(rest);
        CollapseIsWords(next);
        OtherFirst(s, next);
      }
    }
  }

  lemma OtherFirst(s: string, next: string)
    requires s != [] && !Kept(s[0]) && next == SkipOthers(s[1..])
    requires Words(next) == Words(s[1..]) && (next != [] ==> s[|s| - 1] == next[|next| - 1])
    ensures Words(s) == Words(next) && Trail(s) == Trail(next) && Lead(s) == "-" && Lead(next) == ""
  {
    assert next == [] ==> Words(s) == [];
  }

  lemma LetterFirst(s: string)
    requires s != [] && Kept(s[0])
    ensures Hyphens(Words(s)) + Trail(s) == [s[0]] + (Lead(s[1..]) + (Hyphens(Words(s[1..])) + Trail(s[1..])))
  {
    var rest := s[1..];
    var words := Words(rest);
    if rest == [] {
      assert Words(s) == [[s[0]]];
    } else if Kept(rest[0]) {
      LetterInWord(s);
      Regroup([s[0]], Hyphens(words), Trail(rest));
    } else if words == [] {
      NoWords(rest);
      assert Words(s) == [[s[0]]] && Trail(s) == "-" && Trail(rest) == "";
    } else {
      assert Words(s)[0] == [s[0]] && Words(s)[1..] == words;
      assert Trail(s) == Trail(rest);
      Regroup([s[0]] + "-", Hyphens(words), Trail(rest));
      Regroup([s[0]], "-", Hyphens(words) + Trail(rest));
    }
  }

  lemma LetterInWord(s: string)
    requires |s| > 1 && Kept(s[0]) && Kept(s[1])
    ensures Hyphens(Words(s)) == [s[0]] + Hyphens(Words(s[1..])) && Trail(s) == Trail(s[1..])
  {
    var words := Words(s[1..]);
    var first := [s[0]] + words[0];
    assert Words(s) == [first] + words[1..];
    assert Words(s)[0] == first && Words(s)[1..] == words[1..];
    Regroup([s[0]], words[0], "-");
    Regroup([s[0]], words[0] + "-", Hyphens(words[1..]));
  }

  lemma Regroup(a: string, b: string, c: string)
    ensures (a + b) + c == a + (b + c)
  {
  }

  lemma {:induction false} HyphensEnds(words: seq<string>)
    requires words != []
    requires forall k | 0 <= k < |words| :: IsWord(words[k])
    ensures var s := Hyphens(words); s != [] && Kept(s[0]) && Kept(s[|s| - 1])
  {
    var first := words[0];
    assert Kept(first[0]) && Kept(first[|first| - 1]);
    if |words| > 1 {
      HyphensEnds(words[1..]);
    }
  }

  lemma {:induction false} WordsKept(s: string)
    ensures forall k | 0 <= k < |Words(s)| :: IsWord(Words(s)[k])
  {
    if s != [] {
      WordsKept(s[1..]);
    }
  }

  /** A slug is the words of the name in lower case, joined by hyphens and cut to length. */
  lemma SlugIsWords(text: string)
    ensures var all := Hyphens(Words(LowerAll(text)));
            && (|all| <= 48 ==> Slug(text) == all)
            && (|all| > 48 ==> Slug(text) == if all[47] == '-' then all[..47] else all[..48])
  {
    var low := LowerAll(text);
    var all := Hyphens(Words(low));
    CollapseIsWords(low);
    if Words(low) != [] {
      WordsKept(low);
      HyphensEnds(Words(low));
    }
    StripEnds(all, Lead(low), Trail(low));
    assert Strip(Collapse(low)) == all;
    SlugIsClean(text);
    CollapseHyphenates(low);
    StripCleans(Collapse(low));
    if |all| > 48 {
      CutAt(all);
    }
  }

  lemma CutAt(all: string)
    requires Clean(all) && |all| > 48
    ensures Strip(Take(all, 48)) == if all[47] == '-' then all[..47] else all[..48]
  {
    var cut := all[..48];
    assert StripLeft(cut) == cut;
    assert cut[..47] == all[..47];
    assert cut[47] == '-' ==> all[..47][46] != '-';
    assert StripRight(all[..47]) == all[..47] || all[46] == '-';
  }

  lemma StripEnds(s: string, lead: string, trail: string)
    requires lead in ["", "-"] && trail in ["", "-"] && (s == "" ==> trail == "")
    requires s != "" ==> Kept(s[0]) && Kept(s[|s| - 1])
    ensures Strip(lead + (s + trail)) == s
  {
    StripLeading(lead, s + trail);
    StripTrailing(s, trail);
  }

  lemma StripLeading(lead: string, s: string)
    requires lead in ["", "-"] && (s != "" ==> s[0] != '-')
    ensures StripLeft(lead + s) == s
  {
    assert (lead + s)[|lead|..] == s;
  }

  lemma StripTrailing(s: string, trail: string)
    requires trail in ["", "-"] && (s != "" ==> s[|s| - 1] != '-')
    ensures StripRight(s + trail) == s
  {
    assert (s + trail)[..|s|] == s;
  }

  /** Without a kept character in it there is no word in a name. */
  lemma {:induction false} NoWords(s: string)
    ensures Words(s) == [] <==> forall i | 0 <= i < |s| :: !Kept(s[i])
  {
    if s != [] {
      NoWords(s[1..]);
      if Words(s) == [] {
        assert !Kept(s[0]);
        forall i | 0 <= i < |s|
          ensures !Kept(s[i])
        {
          assert i > 0 ==> s[i] == s[1..][i - 1];
        }
      }
    }
  }

  lemma SlugEmpty(text: string)
    ensures Slug(text) == "" <==> forall i | 0 <= i < |text| :: !Kept(Lower(text[i]))
  {
    var low := LowerAll(text);
    NoWords(low);
    SlugIsWords(text);
    if Words(low) != [] {
      WordsKept(low);
      HyphensEnds(Words(low));
      assert Slug(text) != "";
    }
    assert forall i | 0 <= i < |text| :: low[i] == Lower(text[i]);
  }

  /** Letters A to Z become a to z in their order, and nothing else changes. */
  lemma LowerCase(c: char)
    ensures 'A' <= c <= 'Z' ==> 'a' <= Lower(c) <= 'z' && Lower(c) as int - 'a' as int == c as int - 'A' as int
    ensures !('A' <= c <= 'Z') ==> Lower(c) == c
  {
  }

  /** What follows the last slash. */
  function BaseName(path: string): string {
    if path == [] then []
    else if path[|path| - 1] == '/' then []
    else BaseName(path[..|path| - 1]) + [path[|path| - 1]]
  }

  /** From the name if it yields anything, else from the device, else from the kind. */
  function EntrySlug(name: Option<string>, device: Option<string>, fallback: string): string {
    var base := if name.Some? then Slug(name.value) else "";
    if base != "" then base
    else
      var port := if device.Some? then Slug(BaseName(device.value)) else "";
      if port != "" then port else fallback
  }

  /** There is no slash in it, and it is all there is or what a slash comes before. */
  lemma {:induction false} BaseNameIs(path: string)
    ensures '/' !in BaseName(path) && |BaseName(path)| <= |path|
    ensures path[|path| - |BaseName(path)|..] == BaseName(path)
    ensures |BaseName(path)| == |path| || path[|path| - |BaseName(path)| - 1] == '/'
  {
    if path != [] && path[|path| - 1] != '/' {
      BaseNameIs(path[..|path| - 1]);
    }
  }

  /** The name decides if there is anything to keep in it, then the device, then the kind. */
  lemma SlugFrom(name: Option<string>, device: Option<string>, fallback: string)
    ensures var file := if device.Some? then BaseName(device.value) else "";
            var named := name.Some? && exists i :: 0 <= i < |name.value| && Kept(Lower(name.value[i]));
            var found := exists i :: 0 <= i < |file| && Kept(Lower(file[i]));
            EntrySlug(name, device, fallback) ==
            if named then Slug(name.value) else if found then Slug(file) else fallback
  {
    if name.Some? {
      SlugEmpty(name.value);
    }
    SlugEmpty(if device.Some? then BaseName(device.value) else "");
  }

  // ================ numbers

  function Digit(d: nat): char
    requires d < 10
  {
    ('0' as int + d) as char
  }

  function Decimal(n: nat): (s: string)
    ensures s != []
  {
    if n < 10 then [Digit(n)] else Decimal(n / 10) + [Digit(n % 10)]
  }

  /** What a numeral of decimal digits stands for. */
  function Value(s: string): int {
    if s == "" then 0 else 10 * Value(s[..|s| - 1]) + (s[|s| - 1] as int - '0' as int)
  }

  lemma {:induction false} DecimalIs(n: nat)
    ensures Value(Decimal(n)) == n
    ensures forall i | 0 <= i < |Decimal(n)| :: '0' <= Decimal(n)[i] <= '9'
    ensures n > 0 ==> Decimal(n)[0] != '0'
  {
    if n < 10 {
      assert Decimal(n)[..0] == "";
    } else {
      DecimalIs(n / 10);
      assert Decimal(n)[..|Decimal(n)| - 1] == Decimal(n / 10);
    }
  }

  lemma {:induction false} DecimalInjective(m: nat, n: nat)
    ensures Decimal(m) == Decimal(n) ==> m == n
    decreases m
  {
    if Decimal(m) == Decimal(n) {
      var a, b := Decimal(m), Decimal(n);
      assert a[|a| - 1] == Digit(m % 10) && b[|b| - 1] == Digit(n % 10);
      if m >= 10 && n >= 10 {
        assert a[..|a| - 1] == Decimal(m / 10) && b[..|b| - 1] == Decimal(n / 10);
        DecimalInjective(m / 10, n / 10);
      } else {
        assert m >= 10 ==> |a| > 1;
        assert n >= 10 ==> |b| > 1;
      }
    }
  }

  function Numbered(base: string, n: nat): string {
    base + "-" + Decimal(n)
  }

  /** The base, a hyphen, and the number in decimal. */
  lemma NumberedIs(base: string, n: nat)
    ensures var id := Numbered(base, n);
            |id| > |base| + 1 && id[..|base|] == base && id[|base|] == '-' && Value(id[|base| + 1..]) == n
  {
    DecimalIs(n);
    assert Numbered(base, n)[|base| + 1..] == Decimal(n);
  }

  lemma NumberedInjective(base: string, m: nat, n: nat)
    ensures Numbered(base, m) == Numbered(base, n) ==> m == n
    ensures Numbered(base, m) != base
  {
    if Numbered(base, m) == Numbered(base, n) {
      assert Numbered(base, m)[|base| + 1..] == Decimal(m);
      assert Numbered(base, n)[|base| + 1..] == Decimal(n);
      DecimalInjective(m, n);
    }
    assert |Numbered(base, m)| > |base|;
  }

  // ================ unique ids

  function OrFallback(base: string): string {
    if base == "" then FALLBACK_SLUG else base
  }

  /** The id is the base itself, or its first number nobody has. */
  ghost predicate FirstFree(id: string, base: string, taken: set<string>) {
    && id !in taken
    && (id == base || (base in taken && exists n: nat :: n > 0 && id == Numbered(base, n) && AllTaken(base, n, taken)))
  }

  ghost predicate AllTaken(base: string, n: nat, taken: set<string>) {
    forall k: nat | 0 < k < n :: Numbered(base, k) in taken
  }

  /** There is only one such id. */
  lemma FirstFreeUnique(id: string, other: string, base: string, taken: set<string>)
    requires FirstFree(id, base, taken) && FirstFree(other, base, taken)
    ensures id == other
  {
    if id != base && other != base {
      var m: nat :| m > 0 && id == Numbered(base, m) && AllTaken(base, m, taken);
      var n: nat :| n > 0 && other == Numbered(base, n) && AllTaken(base, n, taken);
      assert m < n ==> Numbered(base, m) in taken;
      assert n < m ==> Numbered(base, n) in taken;
    }
  }

  /** As many numbers as are in use use up that many taken ids. */
  lemma {:induction false} Pigeonhole(base: string, n: nat, taken: set<string>)
    requires AllTaken(base, n + 1, taken)
    ensures n <= |taken|
    decreases n
  {
    if n > 0 {
      forall k | 0 < k < n
        ensures Numbered(base, k) in taken - {Numbered(base, n)}
      {
        NumberedInjective(base, k, n);
      }
      Pigeonhole(base, n - 1, taken - {Numbered(base, n)});
      assert Numbered(base, n) in taken;
    }
  }

  method UniqueId(wanted: string, taken: set<string>) returns (id: string)
    ensures FirstFree(id, if wanted == "" then "port" else wanted, taken) && id != ""
  {
    var base := OrFallback(wanted);
    if base !in taken {
      return base;
    }
    var number := 1;
    while Numbered(base, number) in taken
      invariant number > 0 && AllTaken(base, number, taken)
      decreases |taken| + 1 - number
    {
      Pigeonhole(base, number, taken);
      number := number + 1;
    }
    id := Numbered(base, number);
  }

  // ================ assignment

  /** A port or an HTTP server; an id that is no string counts as none. */
  class Entry {
    const name: Option<string>
    const device: Option<string>
    const fallback: string
    var id: Option<string>

    constructor (name: Option<string>, device: Option<string>, fallback: string, id: Option<string>)
      ensures this.name == name && this.device == device && this.fallback == fallback && this.id == id
    {
      this.name, this.device, this.fallback, this.id := name, device, fallback, id;
    }

    function Base(): string {
      OrFallback(EntrySlug(name, device, fallback))
    }
  }

  function Ids(entries: seq<Entry>): (ids: seq<Option<string>>)
    reads entries
    ensures |ids| == |entries| && forall i | 0 <= i < |entries| :: ids[i] == entries[i].id
  {
    if entries == [] then [] else [entries[0].id] + Ids(entries[1..])
  }

  function Bases(entries: seq<Entry>): (bases: seq<string>)
    ensures |bases| == |entries| && forall i | 0 <= i < |entries| :: bases[i] == entries[i].Base()
  {
    seq(|entries|, i requires 0 <= i < |entries| => entries[i].Base())
  }

  /** The first to carry an id is the one that keeps it. */
  predicate FirstHolder(ids: seq<Option<string>>, i: nat)
    requires i < |ids|
  {
    ids[i].Some? && ids[i].value != "" && forall j | 0 <= j < i :: ids[j] != ids[i]
  }

  predicate AllDistinct(ids: seq<Option<string>>) {
    && (forall i | 0 <= i < |ids| :: ids[i].Some? && ids[i].value != "")
    && (forall i, j | 0 <= i < j < |ids| :: ids[i] != ids[j])
  }

  /** Nothing is left to do exactly when every entry holds its id first. */
  lemma SettledIds(ids: seq<Option<string>>)
    ensures AllDistinct(ids) <==> forall i | 0 <= i < |ids| :: FirstHolder(ids, i)
  {
    if forall i | 0 <= i < |ids| :: FirstHolder(ids, i) {
      forall i | 0 <= i < |ids|
        ensures ids[i].Some? && ids[i].value != "" && forall j | 0 <= j < i :: ids[j] != ids[i]
      {
        assert FirstHolder(ids, i);
      }
    }
  }

  /** The ids in use when entry `n` is given one: those that stay, and those given before it. */
  ghost function TakenBefore(was: seq<Option<string>>, ids: seq<Option<string>>, n: nat): set<string>
    requires |ids| == |was|
  {
    set j: nat | j < |ids| && (FirstHolder(was, j) || j < n) && ids[j].Some? :: ids[j].value
  }

  /** Entry `i` kept its id, or has the first free one its own name makes. */
  ghost predicate Given(was: seq<Option<string>>, ids: seq<Option<string>>, bases: seq<string>, i: nat)
    requires |ids| == |was| == |bases| && i < |ids|
  {
    if FirstHolder(was, i) then ids[i] == was[i]
    else ids[i].Some? && ids[i].value != "" && FirstFree(ids[i].value, bases[i], TakenBefore(was, ids, i))
  }

  /** Everyone before `n` has an id; the others are as they were. */
  ghost predicate Progressed(was: seq<Option<string>>, ids: seq<Option<string>>, bases: seq<string>, n: nat,
                             seen: set<string>)
  {
    && |ids| == |was| == |bases|
    && (forall i: nat | i < n && i < |ids| :: Given(was, ids, bases, i))
    && (forall i: nat | n <= i < |ids| :: ids[i] == was[i])
    && seen == TakenBefore(was, ids, n)
  }

  /** Every entry having been given its id, no two have the same. */
  lemma GivenDistinct(was: seq<Option<string>>, ids: seq<Option<string>>, bases: seq<string>)
    requires |ids| == |was| == |bases|
    requires forall i: nat | i < |ids| :: Given(was, ids, bases, i)
    ensures AllDistinct(ids)
  {
    forall i: nat | i < |ids|
      ensures ids[i].Some? && ids[i].value != ""
    {
      assert Given(was, ids, bases, i);
    }
    forall i: nat, j: nat | i < j < |ids|
      ensures ids[i] != ids[j]
    {
      assert Given(was, ids, bases, i) && Given(was, ids, bases, j);
      if !FirstHolder(was, j) {
        assert ids[i].value in TakenBefore(was, ids, j);
      } else if !FirstHolder(was, i) {
        assert ids[j].value in TakenBefore(was, ids, i);
      }
    }
  }

  /** An id that is there is kept by the first entry that has it. */
  lemma FirstKeeps(was: seq<Option<string>>, ids: seq<Option<string>>, bases: seq<string>, i: nat)
    requires |ids| == |was| == |bases| && i < |ids| && Given(was, ids, bases, i)
    ensures was[i].Some? && was[i].value != "" && was[i] !in was[..i] ==> ids[i] == was[i]
    ensures was[i].None? || was[i].value == "" || was[i] in was[..i] ==>
              ids[i].Some? && ids[i].value != "" && FirstFree(ids[i].value, bases[i], TakenBefore(was, ids, i))
  {
  }

  lemma SameTaken(was: seq<Option<string>>, ids: seq<Option<string>>, other: seq<Option<string>>, n: nat)
    requires |ids| == |other| == |was|
    requires forall j: nat | j < |ids| && (FirstHolder(was, j) || j < n) :: ids[j] == other[j]
    ensures TakenBefore(was, ids, n) == TakenBefore(was, other, n)
  {
  }

  lemma ProgressStep(was: seq<Option<string>>, ids: seq<Option<string>>, bases: seq<string>, n: nat,
                     seen: set<string>, id: string)
    requires Progressed(was, ids, bases, n, seen)
    requires n < |was| && !FirstHolder(was, n) && id != "" && FirstFree(id, bases[n], seen)
    ensures Progressed(was, ids[n := Some(id)], bases, n + 1, seen + {id})
  {
    var next := ids[n := Some(id)];
    SameTaken(was, ids, next, n);
    forall i: nat | i < n
      ensures Given(was, next, bases, i)
    {
      assert Given(was, ids, bases, i);
      SameTaken(was, ids, next, i);
    }
    assert next[n].value in TakenBefore(was, next, n + 1);
    forall x | x in seen
      ensures x in TakenBefore(was, next, n + 1)
    {
      var j: nat :| j < |ids| && (FirstHolder(was, j) || j < n) && ids[j].Some? && ids[j].value == x;
      assert next[j].value == x;
    }
  }

  /** Those who keep their ids need no step. */
  lemma ProgressSkip(was: seq<Option<string>>, ids: seq<Option<string>>, bases: seq<string>, n: nat, m: nat,
                     seen: set<string>)
    requires Progressed(was, ids, bases, n, seen) && n <= m <= |was|
    requires forall i: nat | n <= i < m :: FirstHolder(was, i)
    ensures Progressed(was, ids, bases, m, seen)
  {
  }

  /** The ids that stay, and the positions that need one, in order. */
  method Survey(ids: seq<Option<string>>) returns (seen: set<string>, pending: seq<nat>)
    ensures seen == TakenBefore(ids, ids, 0)
    ensures Pending(ids, pending)
  {
    seen, pending := {}, [];
    for k := 0 to |ids|
      invariant forall i: nat :: i in pending <==> i < k && !FirstHolder(ids, i)
      invariant forall p, q | 0 <= p < q < |pending| :: pending[p] < pending[q]
      invariant forall i | 0 <= i < k && ids[i].Some? && ids[i].value != "" :: ids[i].value in seen
      invariant forall id | id in seen :: exists i: nat :: i < k && FirstHolder(ids, i) && ids[i] == Some(id)
    {
      SeenBefore(ids, k, seen);
      if ids[k].Some? && ids[k].value != "" && ids[k].value !in seen {
        seen := seen + {ids[k].value};
      } else {
        assert forall q | 0 <= q < |pending| :: pending[q] in pending;
        pending := pending + [k];
      }
    }
  }

  /** `pending` is the positions that do not keep their id, in order. */
  ghost predicate Pending(was: seq<Option<string>>, pending: seq<nat>) {
    && (forall i: nat :: i in pending <==> i < |was| && !FirstHolder(was, i))
    && (forall p, q | 0 <= p < q < |pending| :: pending[p] < pending[q])
  }

  lemma SeenBefore(ids: seq<Option<string>>, k: nat, seen: set<string>)
    requires k < |ids|
    requires forall i | 0 <= i < k && ids[i].Some? && ids[i].value != "" :: ids[i].value in seen
    requires forall id | id in seen :: exists i: nat :: i < k && FirstHolder(ids, i) && ids[i] == Some(id)
    ensures FirstHolder(ids, k) <==> ids[k].Some? && ids[k].value != "" && ids[k].value !in seen
  {
  }

  /** Where the `p`-th pending position is, or the end. */
  function Upto(pending: seq<nat>, p: nat, end: nat): nat
    requires p <= |pending|
  {
    if p < |pending| then pending[p] else end
  }

  /** Between one pending position and the next, everyone keeps their id. */
  lemma KeptBetween(was: seq<Option<string>>, pending: seq<nat>, p: nat, i: nat)
    requires Pending(was, pending) && p <= |pending|
    requires (if p == 0 then 0 else pending[p - 1] + 1) <= i < Upto(pending, p, |was|)
    ensures i < |was| && FirstHolder(was, i)
  {
    assert p < |pending| ==> pending[p] in pending;
    forall q | 0 <= q < |pending|
      ensures pending[q] != i
    {
      assert q < p ==> pending[q] <= pending[p - 1];
      assert q > p ==> pending[p] < pending[q];
    }
  }

  lemma IdsUpdate(before: seq<Option<string>>, entries: seq<Entry>, i: nat, id: string)
    requires i < |entries| == |before|
    requires forall j | 0 <= j < |entries| :: entries[j].id == if j == i then Some(id) else before[j]
    ensures Ids(entries) == before[i := Some(id)]
  {
  }

  /** One more pending entry is given an id nobody has. */
  method GiveId(entries: seq<Entry>, ghost was: seq<Option<string>>, n: nat, seen: set<string>)
      returns (seen': set<string>)
    requires forall i, j | 0 <= i < j < |entries| :: entries[i] != entries[j]
    requires Progressed(was, Ids(entries), Bases(entries), n, seen)
    requires n < |entries| && !FirstHolder(was, n)
    modifies entries[n]
    ensures Progressed(was, Ids(entries), Bases(entries), n + 1, seen')
  {
    ghost var before := Ids(entries);
    var id := UniqueId(EntrySlug(entries[n].name, entries[n].device, entries[n].fallback), seen);
    ProgressStep(was, before, Bases(entries), n, seen, id);
    entries[n].id := Some(id);
    IdsUpdate(before, entries, n, id);
    seen' := seen + {id};
  }

  method GiveNext(entries: seq<Entry>, ghost was: seq<Option<string>>, pending: seq<nat>, p: nat, seen: set<string>)
      returns (seen': set<string>)
    requires forall i, j | 0 <= i < j < |entries| :: entries[i] != entries[j]
    requires Pending(was, pending) && p < |pending|
    requires Progressed(was, Ids(entries), Bases(entries), pending[p], seen)
    modifies entries
    ensures Progressed(was, Ids(entries), Bases(entries), Upto(pending, p + 1, |was|), seen')
  {
    assert pending[p] in pending;
    seen' := GiveId(entries, was, pending[p], seen);
    NextPending(was, Ids(entries), Bases(entries), pending, p, seen');
  }

  lemma NextPending(was: seq<Option<string>>, ids: seq<Option<string>>, bases: seq<string>, pending: seq<nat>,
                    p: nat, seen: set<string>)
    requires Pending(was, pending) && p < |pending|
    requires Progressed(was, ids, bases, pending[p] + 1, seen)
    ensures Progressed(was, ids, bases, Upto(pending, p + 1, |was|), seen)
  {
    assert pending[p] in pending;
    forall i: nat | pending[p] < i < Upto(pending, p + 1, |was|)
      ensures i < |was| && FirstHolder(was, i)
    {
      KeptBetween(was, pending, p + 1, i);
    }
    assert p + 1 < |pending| ==> pending[p + 1] in pending;
    ProgressSkip(was, ids, bases, pending[p] + 1, Upto(pending, p + 1, |was|), seen);
  }

  /**
   * Give every entry an id of its own. What is written down stays, and
   * whoever has none, or a later copy, gets the first free one.
   */
  method AssignIds(entries: seq<Entry>) returns (changed: bool)
    requires forall i, j | 0 <= i < j < |entries| :: entries[i] != entries[j]
    modifies entries
    ensures forall i: nat | i < |entries| :: Given(old(Ids(entries)), Ids(entries), Bases(entries), i)
    ensures AllDistinct(Ids(entries))
    ensures changed <==> !AllDistinct(old(Ids(entries)))
  {
    ghost var was := Ids(entries);
    var seen, pending := Survey(Ids(entries));
    Surveyed(was, Bases(entries), pending, seen);
    for p := 0 to |pending|
      invariant Progressed(was, Ids(entries), Bases(entries), Upto(pending, p, |was|), seen)
    {
      seen := GiveNext(entries, was, pending, p, seen);
    }
    GivenDistinct(was, Ids(entries), Bases(entries));
    changed := pending != [];
  }

  /** After the survey nothing has been given out, and what stays is settled. */
  lemma Surveyed(ids: seq<Option<string>>, bases: seq<string>, pending: seq<nat>, seen: set<string>)
    requires |ids| == |bases| && Pending(ids, pending) && seen == TakenBefore(ids, ids, 0)
    ensures Progressed(ids, ids, bases, Upto(pending, 0, |ids|), seen)
    ensures pending == [] <==> AllDistinct(ids)
  {
    forall i: nat | i < Upto(pending, 0, |ids|)
      ensures i < |ids| && FirstHolder(ids, i)
    {
      KeptBetween(ids, pending, 0, i);
    }
    assert pending != [] ==> pending[0] in pending;
    ProgressSkip(ids, ids, bases, 0, Upto(pending, 0, |ids|), seen);
    SettledIds(ids);
  }

  /** What a run hands out is settled by the configuration it started from. */
  lemma {:induction false} AssignmentUnique(was: seq<Option<string>>, ids: seq<Option<string>>,
                                            other: seq<Option<string>>, bases: seq<string>, n: nat)
    requires |ids| == |other| == |was| == |bases| && n <= |was|
    requires forall i: nat | i < |was| :: Given(was, ids, bases, i) && Given(was, other, bases, i)
    ensures forall i: nat | i < n :: ids[i] == other[i]
  {
    if n > 0 {
      AssignmentUnique(was, ids, other, bases, n - 1);
      var i := n - 1;
      assert Given(was, ids, bases, i) && Given(was, other, bases, i);
      if !FirstHolder(was, i) {
        forall j: nat | j < |ids| && (FirstHolder(was, j) || j < i)
          ensures ids[j] == other[j]
        {
          assert Given(was, ids, bases, j) && Given(was, other, bases, j);
        }
        SameTaken(was, ids, other, i);
        FirstFreeUnique(ids[i].value, other[i].value, bases[i], TakenBefore(was, ids, i));
      }
    }
  }

  /** A second run has nothing to do. */
  lemma SecondRun(was: seq<Option<string>>, ids: seq<Option<string>>, bases: seq<string>)
    requires |ids| == |was| == |bases| && AllDistinct(was)
    requires forall i: nat | i < |ids| :: Given(was, ids, bases, i)
    ensures ids == was
  {
    SettledIds(was);
    forall i: nat | i < |ids|
      ensures ids[i] == was[i]
    {
      assert Given(was, ids, bases, i) && FirstHolder(was, i);
    }
  }
}
