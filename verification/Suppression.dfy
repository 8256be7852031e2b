/** Address normalization, the suppression list, and the pre-send verify gate. */
module Suppression {
  import opened Common

  // ---------- normalization ----------

  /** The ASCII characters `str.strip` removes: tab to carriage return, the four separators, space. */
  predicate IsSpace(c: char) { 9 <= c as int <= 13 || 28 <= c as int <= 32 }

  function StripLeft(s: string): string { if s != "" && IsSpace(s[0]) then StripLeft(s[1..]) else s }

  function StripRight(s: string): string {
    if s != "" && IsSpace(s[|s| - 1]) then StripRight(s[..|s| - 1]) else s
  }

  /** `str(value).strip().lower()`, with the empty string for None. */
  function Norm(v: Option<string>): string { if v.None? then "" else Lower(StripRight(StripLeft(v.value))) }

  function Digits(s: string): string {
    if s == "" then "" else (if '0' <= s[0] <= '9' then [s[0]] else "") + Digits(s[1..])
  }

  function Zip5(v: Option<string>): string {
    var d := Digits(if v.None? then "" else v.value);
    if |d| > 5 then d[..5] else d
  }

  datatype Address = Address(
    line1: Option<string>, line2: Option<string>, city: Option<string>, state: Option<string>, zip: Option<string>)

  /** An empty second line stands for None, as it does in the canonical string. */
  datatype Normalized = Normalized(line1: string, line2: string, city: string, state: string, zip5: string)

  function Normalize(a: Address): Normalized {
    Normalized(Norm(a.line1), Norm(a.line2), Norm(a.city), Norm(a.state), Zip5(a.zip))
  }

  function Pipe(field: string, rest: string): string { field + "|" + rest }

  function Canonical(n: Normalized): string { Pipe(n.line1, Pipe(n.line2, Pipe(n.city, Pipe(n.state, n.zip5)))) }

  /** The normalized fields sent through again as an address. */
  function AsAddress(n: Normalized): Address {
    Address(Some(n.line1), if n.line2 == "" then None else Some(n.line2), Some(n.city), Some(n.state), Some(n.zip5))
  }

  predicate Trimmed(s: string) { s == "" || (!IsSpace(s[0]) && !IsSpace(s[|s| - 1])) }

  lemma {:induction false} StripLeftTrims(s: string)
    ensures var t := StripLeft(s); t == "" || !IsSpace(t[0])
  {
    if s != "" && IsSpace(s[0]) {
      StripLeftTrims(s[1..]);
    }
  }

  lemma {:induction false} StripRightTrims(s: string)
    ensures var t := StripRight(s); t <= s && (t == "" || !IsSpace(t[|t| - 1]))
  {
    if s != "" && IsSpace(s[|s| - 1]) {
      StripRightTrims(s[..|s| - 1]);
    }
  }

  lemma StripTrims(s: string)
    ensures Trimmed(StripRight(StripLeft(s)))
  {
    StripLeftTrims(s);
    StripRightTrims(StripLeft(s));
  }

  lemma TrimmedIsFixed(s: string)
    requires Trimmed(s)
    ensures StripRight(StripLeft(s)) == s
  {
  }

  lemma LowerFacts(s: string)
    ensures Lower(Lower(s)) == Lower(s)
    ensures Trimmed(s) ==> Trimmed(Lower(s))
  {
    assert Lower(Lower(s)) == Lower(s);
  }

  lemma NormIdempotent(v: Option<string>)
    ensures Norm(Some(Norm(v))) == Norm(v)
    ensures Norm(v) == "" ==> Norm(None) == Norm(v)
  {
    if v.Some? {
      StripTrims(v.value);
      var s := StripRight(StripLeft(v.value));
      LowerFacts(s);
      TrimmedIsFixed(Lower(s));
    }
  }

  lemma {:induction false} DigitsOfDigits(s: string)
    requires forall i :: 0 <= i < |s| ==> '0' <= s[i] <= '9'
    ensures Digits(s) == s
  {
    if s != "" {
      DigitsOfDigits(s[1..]);
    }
  }

  lemma {:induction false} DigitsAreDigits(s: string)
    ensures forall i :: 0 <= i < |Digits(s)| ==> '0' <= Digits(s)[i] <= '9'
  {
    if s != "" {
      DigitsAreDigits(s[1..]);
    }
  }

  lemma Zip5Idempotent(v: Option<string>)
    ensures Zip5(Some(Zip5(v))) == Zip5(v)
  {
    DigitsAreDigits(if v.None? then "" else v.value);
    DigitsOfDigits(Zip5(v));
  }

  /** Normalizing a normalized address changes nothing. */
  lemma NormalizeIdempotent(a: Address)
    ensures Normalize(AsAddress(Normalize(a))) == Normalize(a)
  {
    hide Norm, Zip5;
    NormIdempotent(a.line1);
    NormIdempotent(a.line2);
    NormIdempotent(a.city);
    NormIdempotent(a.state);
    Zip5Idempotent(a.zip);
  }

  // ---------- retyping ----------

  predicate Blank(s: string) { forall i :: 0 <= i < |s| ==> IsSpace(s[i]) }

  lemma {:induction false} LeftPadding(pad: string, s: string)
    requires Blank(pad)
    ensures StripLeft(pad + s) == StripLeft(s)
  {
    if pad == "" {
      assert pad + s == s;
    } else {
      assert (pad + s)[1..] == pad[1..] + s;
      LeftPadding(pad[1..], s);
    }
  }

  lemma {:induction false} RightPadding(s: string, pad: string)
    requires Blank(pad)
    ensures StripRight(s + pad) == StripRight(s)
  {
    if pad == "" {
      assert s + pad == s;
    } else {
      var n := |s + pad| - 1;
      assert (s + pad)[n] == pad[|pad| - 1];
      assert (s + pad)[..n] == s + pad[..|pad| - 1];
      RightPadding(s, pad[..|pad| - 1]);
    }
  }

  /** Stripping from the left leaves right padding alone, unless nothing else is there. */
  lemma {:induction false} StripLeftSnoc(s: string, pad: string)
    requires Blank(pad)
    ensures StripLeft(s + pad) == if StripLeft(s) == "" then "" else StripLeft(s) + pad
  {
    if s == "" {
      LeftPadding(pad, "");
      assert s + pad == pad && pad + "" == pad;
    } else if IsSpace(s[0]) {
      assert (s + pad)[1..] == s[1..] + pad;
      StripLeftSnoc(s[1..], pad);
    }
  }

  lemma {:induction false} StripLeftLower(s: string)
    ensures StripLeft(Lower(s)) == Lower(StripLeft(s))
  {
    if s != "" && IsSpace(s[0]) {
      assert Lower(s)[1..] == Lower(s[1..]);
      StripLeftLower(s[1..]);
    }
  }

  lemma {:induction false} StripRightLower(s: string)
    ensures StripRight(Lower(s)) == Lower(StripRight(s))
  {
    if s != "" && IsSpace(s[|s| - 1]) {
      assert Lower(s)[..|s| - 1] == Lower(s[..|s| - 1]);
      StripRightLower(s[..|s| - 1]);
    }
  }

  /** `t` is `s` in other letter case, with blanks around it. */
  ghost predicate Retyped(s: string, t: string) {
    exists pad, core, pad' :: t == pad + core + pad' && Blank(pad) && Blank(pad') && Lower(core) == Lower(s)
  }

  /** Padding and letter case do not reach the normalized field. */
  lemma RetypingIsInvisible(s: string, t: string)
    requires Retyped(s, t)
    ensures Norm(Some(t)) == Norm(Some(s))
  {
    hide StripLeft, StripRight, Lower;
    var pad, core, pad' :| t == pad + core + pad' && Blank(pad) && Blank(pad') && Lower(core) == Lower(s);
    assert t == pad + (core + pad');
    LeftPadding(pad, core + pad');
    StripLeftSnoc(core, pad');
    RightPadding(StripLeft(core), pad');
    if StripLeft(core) == "" {
      assert StripLeft(t) == StripLeft(core);
    }
    StripRightLower(StripLeft(core));
    StripLeftLower(core);
    StripRightLower(StripLeft(s));
    StripLeftLower(s);
  }

  lemma {:induction false} DigitsConcat(s: string, t: string)
    ensures Digits(s + t) == Digits(s) + Digits(t)
  {
    if s == "" {
      assert s + t == t;
    } else {
      assert (s + t)[1..] == s[1..] + t;
      DigitsConcat(s[1..], t);
    }
  }

  /** Only the first five digits of a ZIP count: what follows them, as in ZIP+4, is ignored. */
  lemma ZipSuffixIsInvisible(zip: string, suffix: string)
    requires |Digits(zip)| >= 5
    ensures Zip5(Some(zip + suffix)) == Zip5(Some(zip))
  {
    hide Digits;
    DigitsConcat(zip, suffix);
    assert (Digits(zip) + Digits(suffix))[..5] == Digits(zip)[..5];
  }

  /** An address typed again: each line retyped, and the ZIP with or without its suffix. */
  ghost predicate RetypedAddress(a: Address, b: Address) {
    && a.line1.Some? && b.line1.Some? && Retyped(a.line1.value, b.line1.value)
    && a.city.Some? && b.city.Some? && Retyped(a.city.value, b.city.value)
    && a.state.Some? && b.state.Some? && Retyped(a.state.value, b.state.value)
    && (a.line2 == b.line2 || (a.line2.Some? && b.line2.Some? && Retyped(a.line2.value, b.line2.value)))
    && a.zip.Some? && |Digits(a.zip.value)| >= 5 && b.zip.Some? && a.zip.value <= b.zip.value
  }

  lemma RetypedAddressIsSame(a: Address, b: Address)
    requires RetypedAddress(a, b)
    ensures Normalize(b) == Normalize(a)
  {
    hide Norm, Zip5, Retyped;
    RetypingIsInvisible(a.line1.value, b.line1.value);
    RetypingIsInvisible(a.city.value, b.city.value);
    RetypingIsInvisible(a.state.value, b.state.value);
    if a.line2 != b.line2 {
      RetypingIsInvisible(a.line2.value, b.line2.value);
    }
    var suffix := b.zip.value[|a.zip.value|..];
    assert b.zip.value == a.zip.value + suffix;
    ZipSuffixIsInvisible(a.zip.value, suffix);
  }

  // ---------- normalized values ----------

  predicate TidyField(s: string) { Trimmed(s) && Lower(s) == s }

  predicate ZipLike(s: string) { |s| <= 5 && forall i :: 0 <= i < |s| ==> '0' <= s[i] <= '9' }

  predicate Normal(n: Normalized) {
    TidyField(n.line1) && TidyField(n.line2) && TidyField(n.city) && TidyField(n.state) && ZipLike(n.zip5)
  }

  lemma NormIsTidy(v: Option<string>)
    ensures TidyField(Norm(v))
  {
    if v.Some? {
      StripTrims(v.value);
      LowerFacts(StripRight(StripLeft(v.value)));
    }
  }

  lemma TidyIsNormed(s: string)
    requires TidyField(s)
    ensures Norm(Some(s)) == s
  {
    TrimmedIsFixed(s);
  }

  /** The normalized values are exactly the normal ones. */
  lemma NormalIffNormalized(n: Normalized)
    ensures Normal(n) <==> Normalize(AsAddress(n)) == n
    ensures forall a :: Normal(Normalize(a))
  {
    hide Norm, Zip5, TidyField, ZipLike;
    forall a ensures Normal(Normalize(a)) {
      NormIsTidy(a.line1);
      NormIsTidy(a.line2);
      NormIsTidy(a.city);
      NormIsTidy(a.state);
      ZipIsZipLike(a.zip);
    }
    if Normal(n) {
      TidyIsNormed(n.line1);
      TidyIsNormed(n.line2);
      TidyIsNormed(n.city);
      TidyIsNormed(n.state);
      ZipLikeIsZip(n.zip5);
      NormOfNothing();
    }
  }

  lemma NormOfNothing()
    ensures Norm(None) == ""
  {
  }

  lemma ZipIsZipLike(v: Option<string>)
    ensures ZipLike(Zip5(v))
  {
    DigitsAreDigits(if v.None? then "" else v.value);
  }

  lemma ZipLikeIsZip(s: string)
    requires ZipLike(s)
    ensures Zip5(Some(s)) == s
  {
    DigitsOfDigits(s);
  }

  // ---------- which addresses share a canonical string ----------

  predicate PipeFree(s: string) { forall i :: 0 <= i < |s| ==> s[i] != '|' }

  /** Where the four separators stand. */
  datatype Cuts = Cuts(first: nat, second: nat, third: nat, fourth: nat) {
    predicate In(s: string) {
      && first < second < third < fourth < |s|
      && s[first] == s[second] == s[third] == s[fourth] == '|'
    }

    predicate Has(q: int) { q == first || q == second || q == third || q == fourth }
  }

  function CutsOf(n: Normalized): Cuts {
    var a := |n.line1|;
    var b := a + 1 + |n.line2|;
    var c := b + 1 + |n.city|;
    Cuts(a, b, c, c + 1 + |n.state|)
  }

  function Cut(s: string, c: Cuts): Normalized
    requires c.In(s)
  {
    Normalized(s[..c.first], s[c.first + 1..c.second], s[c.second + 1..c.third],
               s[c.third + 1..c.fourth], s[c.fourth + 1..])
  }

  /** The field a piped rest of the string starts with. */
  lemma Peel(s: string, lo: nat, a: string, rest: string)
    requires lo <= |s| && s[lo..] == Pipe(a, rest)
    ensures var q := lo + |a|; q < |s| && s[lo..q] == a && s[q] == '|' && s[q + 1..] == rest
  {
    var t := Pipe(a, rest);
    assert t[..|a|] == a && t[|a| + 1..] == rest && t[|a|] == '|';
    assert s[lo..][..|a|] == s[lo..lo + |a|];
    assert s[lo..][|a| + 1..] == s[lo + |a| + 1..];
  }

  lemma Joint(s: string, lo: nat, q: nat)
    requires lo <= q < |s| && s[q] == '|'
    ensures s[lo..] == Pipe(s[lo..q], s[q + 1..])
  {
  }

  /** Cutting a canonical string at its own separators gives the fields back. */
  lemma CutOfCanonical(n: Normalized)
    ensures CutsOf(n).In(Canonical(n)) && Cut(Canonical(n), CutsOf(n)) == n
  {
    hide Pipe;
    var s, c := Canonical(n), CutsOf(n);
    assert s[0..] == s;
    Peel(s, 0, n.line1, Pipe(n.line2, Pipe(n.city, Pipe(n.state, n.zip5))));
    Peel(s, c.first + 1, n.line2, Pipe(n.city, Pipe(n.state, n.zip5)));
    Peel(s, c.second + 1, n.city, Pipe(n.state, n.zip5));
    Peel(s, c.third + 1, n.state, n.zip5);
    assert s[0..c.first] == s[..c.first];
  }

  lemma CanonicalOfCut(s: string, c: Cuts)
    requires c.In(s)
    ensures Canonical(Cut(s, c)) == s && CutsOf(Cut(s, c)) == c
  {
    hide Pipe;
    Joint(s, 0, c.first);
    Joint(s, c.first + 1, c.second);
    Joint(s, c.second + 1, c.third);
    Joint(s, c.third + 1, c.fourth);
    assert s[0..] == s && s[0..c.first] == s[..c.first];
  }

  /** Four separators among the same four positions are the same separators. */
  lemma SameCuts(s: string, c: Cuts, d: Cuts)
    requires c.In(s) && d.In(s)
    requires d.Has(c.first) && d.Has(c.second) && d.Has(c.third) && d.Has(c.fourth)
    ensures c == d
  {
  }

  predicate PipesOut(n: Normalized) {
    PipeFree(n.line1) && PipeFree(n.line2) && PipeFree(n.city) && PipeFree(n.state) && PipeFree(n.zip5)
  }

  lemma PipesAreCuts(n: Normalized, q: nat)
    requires PipesOut(n) && q < |Canonical(n)| && Canonical(n)[q] == '|'
    ensures CutsOf(n).Has(q)
  {
    hide Canonical, CutsOf, PipeFree;
    CutOfCanonical(n);
    var s, c := Canonical(n), CutsOf(n);
    if q < c.first {
      assert s[0..c.first] == n.line1;
      PipeInField(s, 0, c.first, q);
    } else if c.first < q < c.second {
      PipeInField(s, c.first + 1, c.second, q);
    } else if c.second < q < c.third {
      PipeInField(s, c.second + 1, c.third, q);
    } else if c.third < q < c.fourth {
      PipeInField(s, c.third + 1, c.fourth, q);
    } else if c.fourth < q {
      assert s[c.fourth + 1..|s|] == n.zip5;
      PipeInField(s, c.fourth + 1, |s|, q);
    }
  }

  lemma PipeInField(s: string, lo: nat, hi: nat, q: nat)
    requires lo <= q < hi <= |s| && s[q] == '|'
    ensures !PipeFree(s[lo..hi])
  {
    assert s[lo..hi][q - lo] == '|';
  }

  /** On an address without a pipe the canonical string determines the fields, whatever the
      fields of the other address. */
  lemma CanonicalInjective(m: Normalized, n: Normalized)
    requires PipesOut(n) && Canonical(m) == Canonical(n)
    ensures m == n
  {
    hide Canonical, CutsOf, PipesOut;
    CutOfCanonical(m);
    CutOfCanonical(n);
    var c := CutsOf(m);
    PipesAreCuts(n, c.first);
    PipesAreCuts(n, c.second);
    PipesAreCuts(n, c.third);
    PipesAreCuts(n, c.fourth);
    SameCuts(Canonical(n), c, CutsOf(n));
  }

  /** A pipe without a blank next to it. */
  predicate CleanPipe(s: string, q: int) {
    && 0 <= q < |s| && s[q] == '|'
    && (q > 0 ==> !IsSpace(s[q - 1])) && (q + 1 < |s| ==> !IsSpace(s[q + 1]))
  }

  predicate NoCleanPipe(s: string) { forall q :: 0 <= q < |s| ==> !CleanPipe(s, q) }

  /** Every pipe inside a field has a blank next to it. */
  predicate Unambiguous(n: Normalized) {
    NoCleanPipe(n.line1) && NoCleanPipe(n.line2) && NoCleanPipe(n.city) && NoCleanPipe(n.state)
  }

  lemma CleanInField(s: string, lo: nat, hi: nat, q: nat)
    requires lo <= q < hi <= |s| && CleanPipe(s, q)
    ensures CleanPipe(s[lo..hi], q - lo) && !NoCleanPipe(s[lo..hi])
  {
    var f := s[lo..hi];
    assert f[q - lo] == s[q];
    assert q > lo ==> f[q - lo - 1] == s[q - 1];
    assert q + 1 < hi ==> f[q - lo + 1] == s[q + 1];
    assert CleanPipe(f, q - lo);
  }

  /** A clean pipe of a field is one of the whole string, when the field ends at separators. */
  lemma CleanInWhole(s: string, lo: nat, hi: nat, i: nat)
    requires lo <= hi <= |s| && CleanPipe(s[lo..hi], i)
    requires (lo > 0 ==> s[lo - 1] == '|') && (hi < |s| ==> s[hi] == '|')
    ensures CleanPipe(s, lo + i)
  {
    var f := s[lo..hi];
    assert f[i] == s[lo + i];
    assert i > 0 ==> f[i - 1] == s[lo + i - 1];
    assert i + 1 < |f| ==> f[i + 1] == s[lo + i + 1];
  }

  /** Separators of trimmed fields are clean. */
  lemma SeparatorIsClean(s: string, lo: nat, q: nat, hi: nat)
    requires lo <= q < hi <= |s| && s[q] == '|' && (lo > 0 ==> s[lo - 1] == '|') && (hi < |s| ==> s[hi] == '|')
    requires Trimmed(s[lo..q]) && Trimmed(s[q + 1..hi])
    ensures CleanPipe(s, q)
  {
    var left, right := s[lo..q], s[q + 1..hi];
    assert lo < q ==> left[|left| - 1] == s[q - 1];
    assert q + 1 < hi ==> right[0] == s[q + 1];
  }

  lemma ZipIsTrimmed(s: string)
    requires ZipLike(s)
    ensures Trimmed(s) && Lower(s) == s && PipeFree(s)
  {
  }

  lemma FieldsOfCanonical(n: Normalized)
    ensures var s, c := Canonical(n), CutsOf(n);
            && c.In(s) && s[0..c.first] == n.line1 && s[c.first + 1..c.second] == n.line2
            && s[c.second + 1..c.third] == n.city && s[c.third + 1..c.fourth] == n.state
            && s[c.fourth + 1..|s|] == n.zip5
  {
    hide Canonical, CutsOf;
    CutOfCanonical(n);
    assert Canonical(n)[0..CutsOf(n).first] == Canonical(n)[..CutsOf(n).first];
  }

  lemma CutsAreClean(n: Normalized)
    requires Normal(n)
    ensures var s, c := Canonical(n), CutsOf(n);
            CleanPipe(s, c.first) && CleanPipe(s, c.second) && CleanPipe(s, c.third) && CleanPipe(s, c.fourth)
  {
    hide Canonical, CutsOf, CleanPipe, Trimmed, ZipLike, Lower, PipeFree, Cut;
    FieldsOfCanonical(n);
    ZipIsTrimmed(n.zip5);
    var s, c := Canonical(n), CutsOf(n);
    SeparatorIsClean(s, 0, c.first, c.second);
    SeparatorIsClean(s, c.first + 1, c.second, c.third);
    SeparatorIsClean(s, c.second + 1, c.third, c.fourth);
    SeparatorIsClean(s, c.third + 1, c.fourth, |s|);
  }

  lemma CleanPipesAreCuts(n: Normalized, q: nat)
    requires ZipLike(n.zip5) && Unambiguous(n) && CleanPipe(Canonical(n), q)
    ensures CutsOf(n).Has(q)
  {
    hide Canonical, CutsOf, CleanPipe, NoCleanPipe, ZipLike, PipeFree;
    CutOfCanonical(n);
    ZipIsTrimmed(n.zip5);
    var s, c := Canonical(n), CutsOf(n);
    CleanIsPipe(s, q);
    if q < c.first {
      assert s[0..c.first] == n.line1;
      CleanInField(s, 0, c.first, q);
    } else if c.first < q < c.second {
      CleanInField(s, c.first + 1, c.second, q);
    } else if c.second < q < c.third {
      CleanInField(s, c.second + 1, c.third, q);
    } else if c.third < q < c.fourth {
      CleanInField(s, c.third + 1, c.fourth, q);
    } else {
      PipesEndBeforeZip(n, q);
    }
  }

  lemma PipesEndBeforeZip(n: Normalized, q: nat)
    requires ZipLike(n.zip5) && q < |Canonical(n)| && Canonical(n)[q] == '|'
    ensures q <= CutsOf(n).fourth
  {
    hide Canonical, CutsOf;
    CutOfCanonical(n);
    var s, c := Canonical(n), CutsOf(n);
    assert forall i :: c.fourth < i < |s| ==> s[i] == n.zip5[i - c.fourth - 1];
  }

  lemma CleanIsPipe(s: string, q: int)
    requires CleanPipe(s, q)
    ensures 0 <= q < |s| && s[q] == '|'
  {
  }

  /** Between clean separators every field is tidy. */
  lemma FieldIsTidy(s: string, lo: nat, hi: nat)
    requires lo <= hi < |s| && CleanPipe(s, hi) && (if lo == 0 then !IsSpace(s[0]) else CleanPipe(s, lo - 1))
    requires Lower(s) == s
    ensures TidyField(s[lo..hi])
  {
    var f := s[lo..hi];
    forall i | 0 <= i < |f| ensures Lower(f)[i] == f[i] {
      assert f[i] == s[lo + i] && Lower(s)[lo + i] == LowerChar(s[lo + i]);
    }
    assert Lower(f) == f;
    if f != "" {
      assert f[0] == s[lo] && f[|f| - 1] == s[hi - 1];
    }
  }

  lemma CutIsNormal(s: string, c: Cuts)
    requires c.In(s) && Lower(s) == s && !IsSpace(s[0]) && ZipLike(s[c.fourth + 1..])
    requires CleanPipe(s, c.first) && CleanPipe(s, c.second) && CleanPipe(s, c.third) && CleanPipe(s, c.fourth)
    ensures Normal(Cut(s, c))
  {
    hide CleanPipe, TidyField, Lower, ZipLike, IsSpace;
    FieldIsTidy(s, 0, c.first);
    assert s[0..c.first] == s[..c.first];
    FieldIsTidy(s, c.first + 1, c.second);
    FieldIsTidy(s, c.second + 1, c.third);
    FieldIsTidy(s, c.third + 1, c.fourth);
  }

  lemma JoinIsLower(a: string, rest: string)
    requires Lower(a) == a && Lower(rest) == rest
    ensures Lower(Pipe(a, rest)) == Pipe(a, rest)
  {
    var s := Pipe(a, rest);
    forall i | 0 <= i < |s| ensures Lower(s)[i] == s[i] {
      if i < |a| {
        assert Lower(a)[i] == a[i];
      } else if i > |a| {
        assert Lower(rest)[i - |a| - 1] == rest[i - |a| - 1];
      }
    }
  }

  lemma CanonicalIsLower(n: Normalized)
    requires Normal(n)
    ensures Lower(Canonical(n)) == Canonical(n) && Canonical(n) != "" && !IsSpace(Canonical(n)[0])
  {
    ZipIsTrimmed(n.zip5);
    JoinIsLower(n.state, n.zip5);
    JoinIsLower(n.city, Pipe(n.state, n.zip5));
    JoinIsLower(n.line2, Pipe(n.city, Pipe(n.state, n.zip5)));
    JoinIsLower(n.line1, Pipe(n.line2, Pipe(n.city, Pipe(n.state, n.zip5))));
    assert n.line1 != "" ==> Canonical(n)[0] == n.line1[0];
    assert n.line1 == "" ==> Canonical(n)[0] == '|';
  }

  /** A clean pipe that is no separator can be made one: another normal address with the same
      canonical string. */
  lemma MoveSeparator(n: Normalized, q: nat) returns (m: Normalized)
    requires Normal(n) && CleanPipe(Canonical(n), q) && q < CutsOf(n).fourth && !CutsOf(n).Has(q)
    ensures Normal(m) && m != n && Canonical(m) == Canonical(n)
  {
    hide Canonical, CutsOf, CleanPipe, Normal, IsSpace, Lower;
    CutOfCanonical(n);
    CutsAreClean(n);
    CanonicalIsLower(n);
    CleanIsPipe(Canonical(n), q);
    var s, c := Canonical(n), CutsOf(n);
    var d := if q < c.first then Cuts(q, c.first, c.second, c.fourth)
             else if q < c.second then Cuts(c.first, q, c.second, c.fourth)
             else Cuts(c.first, c.second, q, c.fourth);
    m := Cut(s, d);
    CanonicalOfCut(s, d);
    NormalZip(n);
    CutIsNormal(s, d);
  }

  lemma NormalZip(n: Normalized)
    requires Normal(n)
    ensures ZipLike(n.zip5)
  {
  }

  /** A clean pipe inside one of the first four fields, as a position of the canonical string. */
  lemma AmbiguousHasPipe(n: Normalized) returns (q: nat)
    requires !Unambiguous(n)
    ensures CleanPipe(Canonical(n), q) && q < CutsOf(n).fourth && !CutsOf(n).Has(q)
  {
    hide Canonical, CutsOf, CleanPipe;
    CutOfCanonical(n);
    var s, c := Canonical(n), CutsOf(n);
    var lo, hi := 0, c.first;
    if !NoCleanPipe(n.line1) {
      assert s[0..c.first] == n.line1;
    } else if !NoCleanPipe(n.line2) {
      lo, hi := c.first + 1, c.second;
    } else if !NoCleanPipe(n.city) {
      lo, hi := c.second + 1, c.third;
    } else {
      lo, hi := c.third + 1, c.fourth;
    }
    var i :| 0 <= i < hi - lo && CleanPipe(s[lo..hi], i);
    CleanInWhole(s, lo, hi, i);
    q := lo + i;
  }

  /** The canonical string determines a normalized address exactly when every pipe inside its
      fields has a blank next to it. */
  lemma CanonicalDetermines(n: Normalized)
    requires Normal(n)
    ensures Unambiguous(n) <==> forall m :: Normal(m) && Canonical(m) == Canonical(n) ==> m == n
  {
    hide Canonical, Normal, Unambiguous, CutsOf, CleanPipe;
    if Unambiguous(n) {
      forall m | Normal(m) && Canonical(m) == Canonical(n) ensures m == n {
        CutOfCanonical(m);
        CutOfCanonical(n);
        CutsAreClean(m);
        NormalZip(n);
        var c := CutsOf(m);
        CleanPipesAreCuts(n, c.first);
        CleanPipesAreCuts(n, c.second);
        CleanPipesAreCuts(n, c.third);
        CleanPipesAreCuts(n, c.fourth);
        SameCuts(Canonical(n), c, CutsOf(n));
      }
    } else {
      var q := AmbiguousHasPipe(n);
      var m := MoveSeparator(n, q);
      assert Normal(m) && Canonical(m) == Canonical(n) && m != n;
    }
  }

  /** So two addresses are confused in the suppression list only through a pipe with no blank next
      to it, and any such pipe does confuse its address with another one. */
  lemma AddressesConfusedIffCleanPipe(a: Address)
    ensures (exists b :: Canonical(Normalize(b)) == Canonical(Normalize(a)) && Normalize(b) != Normalize(a))
            <==> !Unambiguous(Normalize(a))
  {
    hide Canonical, Normal, Unambiguous, Normalize;
    var n := Normalize(a);
    NormalIffNormalized(n);
    CanonicalDetermines(n);
    if !Unambiguous(n) {
      var m :| Normal(m) && Canonical(m) == Canonical(n) && m != n;
      NormalIffNormalized(m);
      assert Canonical(Normalize(AsAddress(m))) == Canonical(n);
    }
  }

  /** With a pipe in a field two different addresses share a canonical string. */
  lemma PipesCollide()
    ensures var a := Address(Some("a|b"), None, Some("c"), Some("d"), Some("1"));
            var b := Address(Some("a"), Some("b"), Some("|c"), Some("d"), Some("1"));
            Normalize(a) != Normalize(b) && Canonical(Normalize(a)) == Canonical(Normalize(b))
  {
    var m, n := Normalized("a|b", "", "c", "d", "1"), Normalized("a", "b", "|c", "d", "1");
    NormalIffNormalized(m);
    NormalIffNormalized(n);
    assert Normalize(AsAddress(m)) == m && Normalize(AsAddress(n)) == n;
    assert Canonical(m) == "a|b||c|d|1";
    assert Canonical(n) == "a|b||c|d|1";
  }

  // ---------- the suppression list ----------

  datatype Suppressed = Suppressed(hash: string, reason: string)

  type Hash = string -> string

  function HashOf(h: Hash, a: Address): string { h(Canonical(Normalize(a))) }

  predicate Thin(n: Normalized) { n.line1 == "" || n.city == "" || n.state == "" || n.zip5 == "" }

  /** INSERT … ON CONFLICT (address_hash, reason) DO NOTHING, unless the address is too thin. */
  function Insert(table: seq<Suppressed>, h: Hash, a: Address, reason: string): seq<Suppressed> {
    if Thin(Normalize(a)) || Suppressed(HashOf(h, a), reason) in table then table
    else table + [Suppressed(HashOf(h, a), reason)]
  }

  /** The most recent row of the hash. */
  function Blocking(table: seq<Suppressed>, hash: string): Option<string> {
    if table == [] then None
    else if table[|table| - 1].hash == hash then Some(table[|table| - 1].reason)
    else Blocking(table[..|table| - 1], hash)
  }

  const UNDELIVERABLE_AT_SEND := "undeliverable_at_send"

  datatype Recipient = SavedId(id: string) | Dict(address: Address) | NoRecipient

  /** The provider's verdict, or an error on its side. */
  datatype Verify = Down | Verdict(deliverability: Option<string>)

  datatype Class = Unknown | Deliverable | Undeliverable | OtherClass(text: string)

  function ClassOf(v: Option<string>): Class {
    if v.None? || v.value == "" then Unknown
    else
      var text := Lower(v.value);
      if "deliverable" <= text then Deliverable
      else if text == "undeliverable" then Undeliverable
      else OtherClass(text)
  }

  datatype Outcome =
    | Passed(deliverability: Option<string>)
    | AddressSuppressed(reason: string)
    | AddressUndeliverable

  /** `verify_or_suppress`. `asked` tells whether the provider was called. */
  datatype Gated = Gated(table: seq<Suppressed>, outcome: Outcome, asked: bool)

  function GateCall(table: seq<Suppressed>, h: Hash, to: Recipient, skip: bool, provider: Verify): Gated {
    if !to.Dict? then Gated(table, Passed(None), false)
    else
      var blocking := Blocking(table, HashOf(h, to.address));
      if blocking.Some? then Gated(table, AddressSuppressed(blocking.value), false)
      else if skip then Gated(table, Passed(None), false)
      else if provider.Down? then Gated(table, Passed(None), true)
      else if ClassOf(provider.deliverability) == Undeliverable then
        Gated(Insert(table, h, to.address, UNDELIVERABLE_AT_SEND), AddressUndeliverable, true)
      else Gated(table, Passed(provider.deliverability), true)
  }

  class Gate {
    const hash: Hash
    var table: seq<Suppressed>

    constructor (h: Hash)
      ensures hash == h && table == []
    {
      hash, table := h, [];
    }

    method InsertSuppression(a: Address, reason: string) returns (inserted: bool)
      modifies this
      ensures table == Insert(old(table), hash, a, reason) && (inserted <==> table != old(table))
    {
      var n := Normalize(a);
      inserted := false;
      if !Thin(n) {
        var row := Suppressed(hash(Canonical(n)), reason);
        if row !in table {
          table := table + [row];
          inserted := true;
        }
      }
    }

    method VerifyOrSuppress(to: Recipient, skip: bool, provider: Verify) returns (outcome: Outcome, asked: bool)
      modifies this
      ensures Gated(table, outcome, asked) == GateCall(old(table), hash, to, skip, provider)
    {
      hide Blocking, Normalize, Canonical, ClassOf;
      outcome, asked := Passed(None), false;
      if !to.Dict? {
        return;
      }
      var blocking := Blocking(table, HashOf(hash, to.address));
      if blocking.Some? {
        return AddressSuppressed(blocking.value), false;
      }
      if skip {
        return;
      }
      asked := true;
      if provider.Down? {
        return;
      }
      if ClassOf(provider.deliverability) == Undeliverable {
        var inserted := InsertSuppression(to.address, UNDELIVERABLE_AT_SEND);
        return AddressUndeliverable, true;
      }
      outcome := Passed(provider.deliverability);
    }
  }

  // ---------- whole histories ----------

  datatype Request =
    | Suppress(address: Address, reason: string)
    | Send(to: Recipient, skip: bool, provider: Verify)

  function Handle(table: seq<Suppressed>, h: Hash, q: Request): seq<Suppressed> {
    match q
    case Suppress(a, reason) => Insert(table, h, a, reason)
    case Send(to, skip, provider) => GateCall(table, h, to, skip, provider).table
  }

  function Serve(table: seq<Suppressed>, h: Hash, qs: seq<Request>): seq<Suppressed> {
    if qs == [] then table else Handle(Serve(table, h, qs[..|qs| - 1]), h, qs[|qs| - 1])
  }

  /** A hash is blocked exactly when some row carries it. */
  lemma {:induction false} BlockingExact(table: seq<Suppressed>, hash: string)
    ensures Blocking(table, hash).Some? <==> exists i :: 0 <= i < |table| && table[i].hash == hash
  {
    if table != [] {
      BlockingExact(table[..|table| - 1], hash);
    }
  }

  lemma {:induction false} RowsStay(table: seq<Suppressed>, h: Hash, qs: seq<Request>)
    ensures table <= Serve(table, h, qs)
  {
    hide Blocking, Normalize, ClassOf, Canonical;
    if qs != [] {
      RowsStay(table, h, qs[..|qs| - 1]);
    }
  }

  lemma BlockedStaysBlocked(table: seq<Suppressed>, later: seq<Suppressed>, hash: string)
    requires table <= later && Blocking(table, hash).Some?
    ensures Blocking(later, hash).Some?
  {
    BlockingExact(table, hash);
    BlockingExact(later, hash);
    var i :| 0 <= i < |table| && table[i].hash == hash;
    assert later[i].hash == hash;
  }

  /** An undeliverable verdict blocks the address from then on exactly when it is not thin. */
  lemma RejectionBlocksIffNotThin(table: seq<Suppressed>, h: Hash, a: Address, provider: Verify)
    requires GateCall(table, h, Dict(a), false, provider).outcome == AddressUndeliverable
    ensures Blocking(GateCall(table, h, Dict(a), false, provider).table, HashOf(h, a)).Some? <==> !Thin(Normalize(a))
  {
    hide Normalize, ClassOf, Canonical;
    var after := GateCall(table, h, Dict(a), false, provider).table;
    BlockingExact(table, HashOf(h, a));
    BlockingExact(after, HashOf(h, a));
    if !Thin(Normalize(a)) {
      assert after[|table|].hash == HashOf(h, a);
    }
  }

  /** Once a non-thin address was rejected as undeliverable, every later gate call with a
      dictionary recipient of the same normalized fields raises suppressed, before the provider
      is asked and even when verification is skipped, whatever happened in between. */
  lemma RejectedStaysSuppressed(table: seq<Suppressed>, h: Hash, a: Address, provider: Verify, qs: seq<Request>,
                                b: Address, skip: bool, other: Verify)
    requires GateCall(table, h, Dict(a), false, provider).outcome == AddressUndeliverable && !Thin(Normalize(a))
    requires Normalize(b) == Normalize(a)
    ensures var later := Serve(GateCall(table, h, Dict(a), false, provider).table, h, qs);
            var g := GateCall(later, h, Dict(b), skip, other);
            g.outcome.AddressSuppressed? && !g.asked && g.table == later
  {
    hide Normalize, ClassOf, Canonical, Blocking, Insert;
    var after := GateCall(table, h, Dict(a), false, provider).table;
    RejectionBlocksIffNotThin(table, h, a, provider);
    RowsStay(after, h, qs);
    BlockedStaysBlocked(after, Serve(after, h, qs), HashOf(h, a));
  }

  /** Suppression survives retyping: other letter case, blanks around a line, a ZIP+4 suffix. */
  lemma RetypedStaysSuppressed(table: seq<Suppressed>, h: Hash, a: Address, provider: Verify, qs: seq<Request>,
                               b: Address, skip: bool, other: Verify)
    requires GateCall(table, h, Dict(a), false, provider).outcome == AddressUndeliverable && !Thin(Normalize(a))
    requires RetypedAddress(a, b)
    ensures var later := Serve(GateCall(table, h, Dict(a), false, provider).table, h, qs);
            var g := GateCall(later, h, Dict(b), skip, other);
            g.outcome.AddressSuppressed? && !g.asked && g.table == later
  {
    hide Normalize, GateCall, Serve, RetypedAddress;
    RetypedAddressIsSame(a, b);
    RejectedStaysSuppressed(table, h, a, provider, qs, b, skip, other);
  }
}
