/** The i18n generator: one enum variant per key, in PascalCase, disambiguated by counting. */
module Variants {
  import opened Prelude

  // ---- the base name of a key ------------------------------------------------------------

  /** `str::split`: the pieces between separators, empty ones included. */
  function Pieces(s: string, sep: char): (r: seq<string>)
    ensures r != []
  {
    if s == "" then [""]
    else
      var r := Pieces(s[1..], sep);
      if s[0] == sep then [""] + r else [[s[0]] + r[0]] + r[1..]
  }

  /** Unicode upper-casing of a character, which may give several. */
  type Upper = char -> string

  function Capital(c: char, upper: Upper): string { if IsDigit(c) then [c] else upper(c) }

  function Capitalized(word: string, upper: Upper): string
  {
    if word == "" then "" else Capital(word[0], upper) + word[1..]
  }

  /** One pass over the characters: separators vanish and the next character is capitalized. */
  function Pascal(s: string, seps: set<char>, start: bool, upper: Upper): string
    decreases |s|
  {
    if s == "" then ""
    else if s[0] in seps then Pascal(s[1..], seps, true, upper)
    else (if start then Capital(s[0], upper) else [s[0]]) + Pascal(s[1..], seps, false, upper)
  }

  /** All words capitalized, the first one only at a start. */
  function JoinWords(words: seq<string>, start: bool, upper: Upper): string
    decreases |words|
  {
    if words == [] then ""
    else (if start then Capitalized(words[0], upper) else words[0]) + JoinWords(words[1..], true, upper)
  }

  lemma {:induction false} WordsArePascal(s: string, start: bool, upper: Upper)
    ensures JoinWords(Pieces(s, '_'), start, upper) == Pascal(s, {'_'}, start, upper)
  {
    if s != "" {
      WordsArePascal(s[1..], s[0] == '_', upper);
      if s[0] == '_' {
        assert Pieces(s, '_')[1..] == Pieces(s[1..], '_');
      } else {
        LongerWord(s[0], Pieces(s[1..], '_'), start, upper);
      }
    }
  }

  lemma LongerWord(c: char, words: seq<string>, start: bool, upper: Upper)
    requires words != []
    ensures JoinWords([[c] + words[0]] + words[1..], start, upper)
         == (if start then Capital(c, upper) else [c]) + JoinWords(words, false, upper)
  {
    var word := [c] + words[0];
    assert word[1..] == words[0] && ([word] + words[1..])[1..] == words[1..];
    Associate(if start then Capital(c, upper) else [c], words[0], JoinWords(words[1..], true, upper));
  }

  /** The segments of a key, each in PascalCase, the first one only from a start. */
  function JoinSegments(segments: seq<string>, start: bool, upper: Upper): string
    decreases |segments|
  {
    if segments == [] then ""
    else Pascal(segments[0], {'_'}, start, upper) + JoinSegments(segments[1..], true, upper)
  }

  lemma {:induction false} SegmentsArePascal(s: string, start: bool, upper: Upper)
    ensures JoinSegments(Pieces(s, '.'), start, upper) == Pascal(s, {'.', '_'}, start, upper)
  {
    if s != "" {
      var r := Pieces(s[1..], '.');
      if s[0] == '.' {
        SegmentsArePascal(s[1..], true, upper);
        assert Pieces(s, '.')[1..] == r;
      } else {
        SegmentsArePascal(s[1..], s[0] == '_', upper);
        LongerSegment(s[0], r, start, upper);
      }
    }
  }

  lemma LongerSegment(c: char, segments: seq<string>, start: bool, upper: Upper)
    requires segments != []
    ensures JoinSegments([[c] + segments[0]] + segments[1..], start, upper)
         == (if c == '_' then "" else if start then Capital(c, upper) else [c]) + JoinSegments(segments, c == '_', upper)
  {
    var segment := [c] + segments[0];
    assert segment[1..] == segments[0] && ([segment] + segments[1..])[1..] == segments[1..];
    Associate(if c == '_' then "" else if start then Capital(c, upper) else [c],
              Pascal(segments[0], {'_'}, c == '_', upper), JoinSegments(segments[1..], true, upper));
  }

  lemma NextSegment(done: string, segments: seq<string>, i: nat, upper: Upper)
    requires i < |segments|
    ensures done + JoinSegments(segments[i..], true, upper)
         == (done + Pascal(segments[i], {'_'}, true, upper)) + JoinSegments(segments[i + 1..], true, upper)
  {
    assert segments[i..][1..] == segments[i + 1..];
    Associate(done, Pascal(segments[i], {'_'}, true, upper), JoinSegments(segments[i + 1..], true, upper));
  }

  lemma NextWord(done: string, words: seq<string>, i: nat, upper: Upper)
    requires i < |words|
    ensures done + JoinWords(words[i..], true, upper)
         == (done + Capitalized(words[i], upper)) + JoinWords(words[i + 1..], true, upper)
    ensures words[i] == "" ==> done + Capitalized(words[i], upper) == done
  {
    assert words[i..][1..] == words[i + 1..];
    Associate(done, Capitalized(words[i], upper), JoinWords(words[i + 1..], true, upper));
  }

  const RESERVED: seq<string> := ["Self", "Super", "Crate", "True", "False"]

  /** Made an identifier: it does not start with a digit and is no reserved word. */
  function Mended(name: string): (r: string)
    ensures r != "" ==> !IsDigit(r[0])
    ensures r !in RESERVED
  {
    var result := if name != "" && IsDigit(name[0]) then "_" + name else name;
    if result in RESERVED then
      assert (result + "_")[|result|] == '_';
      result + "_"
    else result
  }

  /** A name that needs no mending is kept; else an underscore is added, before a digit or after a
      reserved word. */
  lemma MendedExact(name: string)
    ensures name != "" && IsDigit(name[0]) ==> Mended(name) == "_" + name
    ensures name in RESERVED ==> Mended(name) == name + "_"
    ensures (name != "" ==> !IsDigit(name[0])) && name !in RESERVED ==> Mended(name) == name
  {
    if name != "" && IsDigit(name[0]) { assert ("_" + name)[0] == '_'; }
  }

  /** Separators are gone from the name, whatever the key. */
  lemma {:induction false} NoSeparatorsLeft(s: string, start: bool, upper: Upper)
    requires forall c, d | d in upper(c) :: d != '.' && d != '_'
    ensures forall d | d in Pascal(s, {'.', '_'}, start, upper) :: d != '.' && d != '_'
    decreases |s|
  {
    if s != "" { NoSeparatorsLeft(s[1..], s[0] in {'.', '_'}, upper); }
  }

  function VariantOf(key: string, upper: Upper): string { Mended(Pascal(key, {'.', '_'}, true, upper)) }

  /** Whatever the key, the variant does not start with a digit and is no reserved word; it is
      the one-pass PascalCase of the key, mended if need be. */
  method KeyToVariant(key: string, upper: Upper) returns (result: string)
    ensures result == VariantOf(key, upper)
    ensures (result != "" ==> !IsDigit(result[0])) && result !in RESERVED
  {
    result := PushKey(key, upper);
    if result != "" && IsDigit(result[0]) { result := "_" + result; }
    if result in RESERVED { result := result + "_"; }
  }

  /** The outer loop. */
  method PushKey(key: string, upper: Upper) returns (result: string)
    ensures result == Pascal(key, {'.', '_'}, true, upper)
  {
    result := "";
    var segments := Pieces(key, '.');
    for i := 0 to |segments|
      invariant result + JoinSegments(segments[i..], true, upper) == JoinSegments(segments, true, upper)
    {
      NextSegment(result, segments, i, upper);
      result := PushSegment(result, segments[i], upper);
    }
    SegmentsArePascal(key, true, upper);
  }

  /** The words of one segment. */
  method PushSegment(before: string, segment: string, upper: Upper) returns (result: string)
    ensures result == before + Pascal(segment, {'_'}, true, upper)
  {
    result := before;
    var words := Pieces(segment, '_');
    for i := 0 to |words|
      invariant result + JoinWords(words[i..], true, upper) == before + JoinWords(words, true, upper)
    {
      NextWord(result, words, i, upper);
      if words[i] != "" { result := PushWord(result, words[i], upper); }
    }
    WordsArePascal(segment, true, upper);
  }

  method PushWord(before: string, word: string, upper: Upper) returns (result: string)
    requires word != ""
    ensures result == before + Capitalized(word, upper)
  {
    result := before;
    for i := 0 to |word|
      invariant result == before + Capitalized(word[..i], upper)
    {
      assert word[..i + 1] == word[..i] + [word[i]];
      assert i > 0 ==> word[..i + 1][1..] == word[..i][1..] + [word[i]];
      if i == 0 {
        result := result + Capital(word[i], upper);
      } else {
        result := result + [word[i]];
      }
    }
    assert word[..|word|] == word;
  }

  // ---- disambiguation ----------------------------------------------------------------------

  function Count(vs: seq<string>, v: string): nat
  {
    if vs == [] then 0 else Count(vs[..|vs| - 1], v) + if vs[|vs| - 1] == v then 1 else 0
  }

  /** The name given to the `i`-th key: its base name, or for the n-th of a clashing group the
      base name followed by n. */
  function NameOf(vs: seq<string>, i: nat): string
    requires i < |vs|
  {
    var n := Count(vs[..i + 1], vs[i]);
    if n <= 1 then vs[i] else vs[i] + Dec(n)
  }

  function Names(vs: seq<string>): seq<(string, bool)>
  {
    seq(|vs|, i requires 0 <= i < |vs| => (NameOf(vs, i), Count(vs, vs[i]) != 1))
  }

  /** How a counting map reads: absent is zero. */
  function Tally(m: map<string, nat>, v: string): nat { if v in m then m[v] else 0 }

  /** The map holds the counts over the first `i` names, for the names that matter. */
  ghost predicate Tallied(m: map<string, nat>, vs: seq<string>, i: nat, matters: string -> bool)
    requires i <= |vs|
  {
    forall v | matters(v) :: Tally(m, v) == Count(vs[..i], v)
  }

  lemma TallyStep(m: map<string, nat>, vs: seq<string>, i: nat, matters: string -> bool)
    requires i < |vs| && Tallied(m, vs, i, matters)
    ensures matters(vs[i]) ==> Tallied(m[vs[i] := Tally(m, vs[i]) + 1], vs, i + 1, matters)
    ensures !matters(vs[i]) ==> Tallied(m, vs, i + 1, matters)
  {
    var m' := m[vs[i] := Tally(m, vs[i]) + 1];
    forall v | matters(v)
      ensures matters(vs[i]) ==> Tally(m', v) == Count(vs[..i + 1], v)
      ensures !matters(vs[i]) ==> Tally(m, v) == Count(vs[..i + 1], v)
    {
      CountSnoc(vs, i, v);
    }
  }

  /** The first pass of `build_variant_map`. */
  method CountVariants(variants: seq<string>) returns (counts: map<string, nat>)
    ensures forall v :: Tally(counts, v) == Count(variants, v)
  {
    counts := map[];
    ghost var all := (v: string) => true;
    for i := 0 to |variants|
      invariant Tallied(counts, variants, i, all)
    {
      TallyStep(counts, variants, i, all);
      counts := counts[variants[i] := Tally(counts, variants[i]) + 1];
    }
    assert variants[..|variants|] == variants;
  }

  /** Both passes. */
  method BuildVariantMap(keys: seq<string>, upper: Upper) returns (result: seq<(string, bool)>)
    ensures result == Names(Bases(keys, upper))
  {
    var variants: seq<string> := [];
    for i := 0 to |keys|
      invariant variants == Bases(keys[..i], upper)
    {
      var variant := KeyToVariant(keys[i], upper);
      variants := variants + [variant];
    }
    assert keys[..|keys|] == keys;
    result := NameInOrder(variants);
  }

  /** The second pass, over the base names. */
  method NameInOrder(variants: seq<string>) returns (result: seq<(string, bool)>)
    ensures result == Names(variants)
  {
    var counts := CountVariants(variants);
    var seen: map<string, nat> := map[];
    ghost var clashing := v => Count(variants, v) != 1;
    result := [];
    for i := 0 to |variants|
      invariant result == Names(variants)[..i]
      invariant Tallied(seen, variants, i, clashing)
    {
      NameByTally(variants, i, seen);
      TallyStep(seen, variants, i, clashing);
      var named := (variants[i], false);
      if Tally(counts, variants[i]) != 1 {
        var counter := Tally(seen, variants[i]) + 1;
        seen := seen[variants[i] := counter];
        named := (if counter == 1 then variants[i] else variants[i] + Dec(counter), true);
      }
      NamesStep(variants, i);
      result := result + [named];
    }
  }

  lemma NamesStep(vs: seq<string>, i: nat)
    requires i < |vs|
    ensures Names(vs)[..i + 1] == Names(vs)[..i] + [(NameOf(vs, i), Count(vs, vs[i]) != 1)]
  {
    SliceStep(Names(vs), i);
  }

  lemma SliceStep<T>(xs: seq<T>, i: nat)
    requires i < |xs|
    ensures xs[..i + 1] == xs[..i] + [xs[i]]
  {
  }

  lemma NameByTally(vs: seq<string>, i: nat, seen: map<string, nat>)
    requires i < |vs| && Tallied(seen, vs, i, v => Count(vs, v) != 1)
    ensures NameOf(vs, i) ==
      if Count(vs, vs[i]) == 1 || Tally(seen, vs[i]) == 0 then vs[i] else vs[i] + Dec(Tally(seen, vs[i]) + 1)
  {
    CountSnoc(vs, i, vs[i]);
    CountPrefix(vs, i + 1, vs[i]);
  }

  function Bases(keys: seq<string>, upper: Upper): seq<string>
  {
    seq(|keys|, i requires 0 <= i < |keys| => VariantOf(keys[i], upper))
  }

  lemma CountSnoc(vs: seq<string>, i: nat, v: string)
    requires i < |vs|
    ensures Count(vs[..i + 1], v) == Count(vs[..i], v) + if vs[i] == v then 1 else 0
  {
    assert vs[..i + 1][..i] == vs[..i];
  }

  lemma {:induction false} CountPrefix(vs: seq<string>, n: nat, v: string)
    requires n <= |vs|
    ensures Count(vs[..n], v) <= Count(vs, v)
    decreases |vs| - n
  {
    if n < |vs| {
      CountSnoc(vs, n, v);
      CountPrefix(vs, n + 1, v);
    } else {
      assert vs[..n] == vs;
    }
  }

  /** The place where the `n`-th occurrence sits. */
  lemma {:induction false} NthOccurrence(vs: seq<string>, v: string, n: nat) returns (i: nat)
    requires 1 <= n <= Count(vs, v)
    ensures i < |vs| && vs[i] == v && Count(vs[..i + 1], v) == n
  {
    var init := vs[..|vs| - 1];
    if n <= Count(init, v) {
      i := NthOccurrence(init, v, n);
      assert init[..i + 1] == vs[..i + 1];
    } else {
      i := |vs| - 1;
      assert vs[..i + 1] == vs;
    }
  }

  lemma {:induction false} OccurrencesGrow(vs: seq<string>, i: nat, j: nat)
    requires i < j < |vs| && vs[i] == vs[j]
    ensures 1 <= Count(vs[..i + 1], vs[i]) < Count(vs[..j + 1], vs[j])
  {
    CountSnoc(vs, i, vs[i]);
    CountSnoc(vs, j, vs[j]);
    var upTo := vs[..j];
    assert upTo[..i + 1] == vs[..i + 1];
    CountPrefix(upTo, i + 1, vs[i]);
  }

  // ---- when are the names distinct? ---------------------------------------------------

  ghost predicate DistinctNames(vs: seq<string>)
  {
    forall i, j | 0 <= i < j < |vs| :: NameOf(vs, i) != NameOf(vs, j)
  }

  /** The group of `b` is large enough to hand out suffix `n`. */
  predicate Reaches(vs: seq<string>, b: string, n: nat) { 2 <= n <= Count(vs, b) }

  /** No suffixed name is a base name, and no two groups hand out one suffixed name. */
  ghost predicate NoClash(vs: seq<string>)
  {
    && (forall b, n | Reaches(vs, b, n) :: b + Dec(n) !in vs)
    && (forall b, m, c, n | Reaches(vs, b, m) && Reaches(vs, c, n) && b != c :: b + Dec(m) != c + Dec(n))
  }

  /** The generated names are pairwise distinct exactly when the group sizes allow no clash. */
  lemma DistinctIffNoClash(vs: seq<string>)
    ensures DistinctNames(vs) <==> NoClash(vs)
  {
    if NoClash(vs) {
      forall i, j | 0 <= i < j < |vs| ensures NameOf(vs, i) != NameOf(vs, j) { PairDistinct(vs, i, j); }
    }
    if DistinctNames(vs) {
      forall b, n | Reaches(vs, b, n) ensures b + Dec(n) !in vs {
        if b + Dec(n) in vs { BaseClash(vs, b, n); }
      }
      forall b, m, c, n | Reaches(vs, b, m) && Reaches(vs, c, n) && b != c ensures b + Dec(m) != c + Dec(n) {
        var i := NthOccurrence(vs, b, m);
        var j := NthOccurrence(vs, c, n);
        assert NameOf(vs, i) == b + Dec(m) && NameOf(vs, j) == c + Dec(n);
        if i < j { assert NameOf(vs, i) != NameOf(vs, j); } else { assert NameOf(vs, j) != NameOf(vs, i); }
      }
    }
  }

  lemma BaseClash(vs: seq<string>, b: string, n: nat)
    requires Reaches(vs, b, n) && b + Dec(n) in vs
    ensures !DistinctNames(vs)
  {
    var i := NthOccurrence(vs, b, n);
    var c := b + Dec(n);
    var k :| 0 <= k < |vs| && vs[k] == c;
    CountSnoc(vs, k, c);
    CountPrefix(vs, k + 1, c);
    var j := NthOccurrence(vs, c, 1);
    assert NameOf(vs, i) == c && NameOf(vs, j) == c;
    assert vs[i] != vs[j];
  }

  lemma PairDistinct(vs: seq<string>, i: nat, j: nat)
    requires NoClash(vs) && i < |vs| && j < |vs| && i != j
    ensures NameOf(vs, i) != NameOf(vs, j)
  {
    var m, n := Count(vs[..i + 1], vs[i]), Count(vs[..j + 1], vs[j]);
    CountPrefix(vs, i + 1, vs[i]);
    CountPrefix(vs, j + 1, vs[j]);
    if vs[i] == vs[j] {
      if i < j { OccurrencesGrow(vs, i, j); } else { OccurrencesGrow(vs, j, i); }
      if m >= 2 && n >= 2 && vs[i] + Dec(m) == vs[j] + Dec(n) {
        assert Dec(m) == (vs[i] + Dec(m))[|vs[i]|..] == Dec(n);
        DecInjective(m, n);
      }
    } else {
      if m >= 2 { assert Reaches(vs, vs[i], m); }
      if n >= 2 { assert Reaches(vs, vs[j], n); }
    }
  }

  /** No base name is another base name followed only by digits. */
  ghost predicate NoDigitExtension(vs: seq<string>)
  {
    forall a, b | a in vs && b in vs && |a| < |b| && b[..|a|] == a :: !AllDigits(b[|a|..])
  }

  lemma {:induction false} Occurs(vs: seq<string>, v: string)
    requires Count(vs, v) > 0
    ensures v in vs
  {
    var i := NthOccurrence(vs, v, 1);
  }

  /** A condition on the base names alone, whatever the group sizes. */
  lemma NoDigitExtensionSuffices(vs: seq<string>)
    requires NoDigitExtension(vs)
    ensures DistinctNames(vs)
  {
    forall b, n | Reaches(vs, b, n) ensures b + Dec(n) !in vs {
      Occurs(vs, b);
      var c := b + Dec(n);
      assert c[..|b|] == b && c[|b|..] == Dec(n);
    }
    forall b, m, c, n | Reaches(vs, b, m) && Reaches(vs, c, n) && b != c ensures b + Dec(m) != c + Dec(n) {
      Occurs(vs, b);
      Occurs(vs, c);
      if b + Dec(m) == c + Dec(n) {
        if |b| <= |c| { Overlap(b, Dec(m), c, Dec(n)); } else { Overlap(c, Dec(n), b, Dec(m)); }
      }
    }
    DistinctIffNoClash(vs);
  }

  lemma Overlap(b: string, s: string, c: string, t: string)
    requires b + s == c + t && |b| <= |c| && AllDigits(s)
    ensures c[..|b|] == b && AllDigits(c[|b|..])
    ensures |b| == |c| ==> b == c
  {
    assert b == (b + s)[..|b|] && c == (c + t)[..|c|];
    assert c[|b|..] == s[..|c| - |b|];
  }

  /** A key is flagged as a duplicate iff another key has its base name. */
  lemma FlagsAreClashes(vs: seq<string>, i: nat)
    requires i < |vs|
    ensures Names(vs)[i].1 <==> exists j :: 0 <= j < |vs| && j != i && vs[j] == vs[i]
  {
    var v := vs[i];
    CountSnoc(vs, i, v);
    CountPrefix(vs, i + 1, v);
    if Count(vs, v) > 1 {
      var j := NthOccurrence(vs, v, 1);
      var k := NthOccurrence(vs, v, 2);
      assert j != k;
      if j == i { assert vs[k] == v && k != i; } else { assert vs[j] == v; }
    }
    if j :| 0 <= j < |vs| && j != i && vs[j] == v {
      if i < j {
        OccurrencesGrow(vs, i, j);
        CountPrefix(vs, j + 1, v);
      } else {
        OccurrencesGrow(vs, j, i);
      }
    }
  }

  /** Counting is by the number of equal names, so the suffix is the key's place in its group. */
  lemma SuffixIsPlace(vs: seq<string>, i: nat)
    requires i < |vs| && vs[i] in vs[..i]
    ensures NameOf(vs, i)[..|vs[i]|] == vs[i]
    ensures NumberOf(NameOf(vs, i)[|vs[i]|..]) == Count(vs[..i], vs[i]) + 1 >= 2
  {
    var base, n := vs[i], Count(vs[..i], vs[i]) + 1;
    CountSnoc(vs, i, base);
    CountsOnce(vs[..i], base);
    DecReads(n);
    assert NameOf(vs, i) == base + Dec(n);
    SplitAt(base, Dec(n));
  }

  lemma {:induction false} CountsOnce(vs: seq<string>, v: string)
    requires v in vs
    ensures Count(vs, v) >= 1
  {
    if vs[|vs| - 1] != v { CountsOnce(vs[..|vs| - 1], v); }
  }

  lemma SplitAt(a: string, b: string)
    ensures (a + b)[..|a|] == a && (a + b)[|a|..] == b
  {
  }

  /** The first key of every group keeps its base name. */
  lemma FirstKeepsBase(vs: seq<string>, i: nat)
    requires i < |vs| && vs[i] !in vs[..i]
    ensures NameOf(vs, i) == vs[i]
  {
    CountSnoc(vs, i, vs[i]);
    if Count(vs[..i], vs[i]) > 0 { Occurs(vs[..i], vs[i]); }
  }

  /** Any base that occurs twice, beside the same base followed by 2, gives that name twice. */
  lemma SuffixCanClash(vs: seq<string>)
    requires |vs| == 3 && vs[0] == vs[2] && vs[1] == vs[0] + "2"
    ensures NameOf(vs, 1) == NameOf(vs, 2) == vs[1]
  {
    CountSnoc(vs, 0, vs[1]);
    CountSnoc(vs, 1, vs[1]);
    CountSnoc(vs, 0, vs[0]);
    CountSnoc(vs, 1, vs[0]);
    CountSnoc(vs, 2, vs[0]);
    assert vs[..0] == [] && vs[0] != vs[1];
    assert Dec(2) == "2";
  }

  function AsciiUpper(c: char): string { if 'a' <= c <= 'z' then [c - 'a' + 'A'] else [c] }

  /** Real keys that clash: "a.b", "a.b2" and "a_b" have bases AB, AB2 and AB, and the last is
      disambiguated to AB2. */
  lemma RealKeysCanClash()
    ensures var vs := Bases(["a.b", "a.b2", "a_b"], AsciiUpper);
            vs == ["AB", "AB2", "AB"] && NameOf(vs, 1) == NameOf(vs, 2) == "AB2"
  {
    PascalOf("a.b");
    PascalOf("a.b2");
    PascalOf("a_b");
    var vs := Bases(["a.b", "a.b2", "a_b"], AsciiUpper);
    assert vs == ["AB", "AB2", "AB"];
    SuffixCanClash(vs);
  }

  /** As documented, sub-segments are capitalized, digits kept, a leading underscore is stripped, and
      a name that would start with a digit gets one. */
  lemma DocumentedNames()
    ensures VariantOf("a.b_c", AsciiUpper) == "ABC"
    ensures VariantOf("p._2h", AsciiUpper) == "P2h"
    ensures VariantOf("2a", AsciiUpper) == "_2a"
  {
    SubSegments();
    LeadingUnderscore();
    LeadingDigit();
  }

  lemma SubSegments()
    ensures VariantOf("a.b_c", AsciiUpper) == "ABC"
  {
    var seps := {'.', '_'};
    assert "a.b_c"[1..] == ".b_c" && ".b_c"[1..] == "b_c" && "b_c"[1..] == "_c" && "_c"[1..] == "c" && "c"[1..] == "";
    assert Pascal("c", seps, true, AsciiUpper) == "C";
    assert Pascal("b_c", seps, true, AsciiUpper) == "BC";
    assert Pascal("a.b_c", seps, true, AsciiUpper) == "ABC";
  }

  lemma LeadingUnderscore()
    ensures VariantOf("p._2h", AsciiUpper) == "P2h"
  {
    var seps := {'.', '_'};
    assert "p._2h"[1..] == "._2h" && "._2h"[1..] == "_2h" && "_2h"[1..] == "2h" && "2h"[1..] == "h" && "h"[1..] == "";
    assert Pascal("2h", seps, true, AsciiUpper) == "2h";
    assert Pascal("p._2h", seps, true, AsciiUpper) == "P2h";
  }

  lemma LeadingDigit()
    ensures VariantOf("2a", AsciiUpper) == "_2a"
  {
    var seps := {'.', '_'};
    assert "2a"[1..] == "a" && "a"[1..] == "";
    assert Pascal("2a", seps, true, AsciiUpper) == "2a";
  }

  lemma PascalOf(key: string)
    requires 3 <= |key| <= 4
    ensures key == "a.b" || key == "a_b" ==> VariantOf(key, AsciiUpper) == "AB"
    ensures key == "a.b2" ==> VariantOf(key, AsciiUpper) == "AB2"
  {
    if key == "a.b" || key == "a_b" || key == "a.b2" {
      var seps := {'.', '_'};
      assert key[1..][1..] == key[2..] && key[2..][1..] == key[3..];
      if |key| == 4 { assert key[3..] == "2" && key[3..][1..] == ""; }
      assert Pascal(key[3..], seps, false, AsciiUpper) == key[3..];
      assert AsciiUpper('a') == "A" && AsciiUpper('b') == "B";
      assert Pascal(key[2..], seps, true, AsciiUpper) == "B" + key[3..];
      assert Pascal(key[1..], seps, false, AsciiUpper) == "B" + key[3..];
      assert Pascal(key, seps, true, AsciiUpper) == "A" + ("B" + key[3..]);
    }
  }
}
