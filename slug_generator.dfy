/** `generateSlug` of the course form hooks
    (app/admin/courses/hooks/useCourseForm.ts and its create-only copy):
    lower-case the title, drop every character outside
    `[a-z0-9а-яё\s-]`, turn each run of whitespace into one `-`, collapse
    runs of `-`, then trim. Each regular-expression pass is one function. */
module SlugGenerator {
  import opened JsValues

  /** What JavaScript's `\s` (and `String.prototype.trim`) treats as
      white space: the ECMAScript WhiteSpace and LineTerminator sets. */
  predicate IsJsSpace(c: char) {
    c == '\t' || c == '\n' || c == '\U{000B}' || c == '\U{000C}' || c == '\r' ||
    c == ' ' || c == '\U{00A0}' || c == '\U{1680}' || ('\U{2000}' <= c <= '\U{200A}') ||
    c == '\U{2028}' || c == '\U{2029}' || c == '\U{202F}' || c == '\U{205F}' ||
    c == '\U{3000}' || c == '\U{FEFF}'
  }

  /** Upper-case letters this model lower-cases: ASCII `A`-`Z` and the
      Cyrillic capitals U+0400-U+042F (`Ё`, `А`-`Я` among them). */
  predicate IsUpper(c: char) {
    'A' <= c <= 'Z' || '\U{0400}' <= c <= '\U{042F}'
  }

  /** The Russian lower-case letters the slug filter keeps: `а`-`я` and `ё`. */
  predicate IsCyrillicLower(c: char) {
    'а' <= c <= 'я' || c == 'ё'
  }

  /** A Russian letter of either case. */
  predicate IsCyrillicLetter(c: char) {
    IsCyrillicLower(c) || 'А' <= c <= 'Я' || c == 'Ё'
  }

  function Lower(c: char): (r: char)
    ensures !IsUpper(r)
    ensures !IsUpper(c) ==> r == c
    ensures IsCyrillicLetter(c) ==> IsCyrillicLower(r)
  {
    if 'A' <= c <= 'Z' then (c as int + 32) as char
    else if '\U{0400}' <= c <= '\U{040F}' then (c as int + 80) as char
    else if '\U{0410}' <= c <= '\U{042F}' then (c as int + 32) as char
    else c
  }

  /** `toLowerCase()`, within the letters above. */
  function LowerAll(s: string): string {
    seq(|s|, i requires 0 <= i < |s| => Lower(s[i]))
  }

  /** The characters `[a-z0-9а-яё\s-]` matches. */
  predicate IsKeptChar(c: char) {
    'a' <= c <= 'z' || '0' <= c <= '9' || IsCyrillicLower(c) || IsJsSpace(c) || c == '-'
  }

  /** What a generated slug is made of. */
  predicate IsSlugOutputChar(c: char) {
    IsKeptChar(c) && !IsJsSpace(c)
  }

  /** `.replace(/[^a-z0-9а-яё\s-]/g, '')`. */
  function StripDisallowed(s: string): string {
    Filter(s, IsKeptChar)
  }

  /** The string without its leading white space. */
  function DropSpaces(s: string): (r: string)
    ensures |r| <= |s|
    ensures r == [] || !IsJsSpace(r[0])
    ensures forall i :: 0 <= i < |r| ==> r[i] in s
    ensures forall c :: c in s && !IsJsSpace(c) ==> c in r
  {
    if s != [] && IsJsSpace(s[0]) then DropSpaces(s[1..]) else s
  }

  /** `.replace(/\s+/g, '-')`. */
  function SpacesToHyphens(s: string): (r: string)
    ensures forall i :: 0 <= i < |r| ==> !IsJsSpace(r[i])
    ensures forall i :: 0 <= i < |r| ==> r[i] == '-' || r[i] in s
    ensures forall c :: c in s && !IsJsSpace(c) ==> c in r
    decreases |s|
  {
    if s == [] then []
    else if IsJsSpace(s[0]) then "-" + SpacesToHyphens(DropSpaces(s[1..]))
    else [s[0]] + SpacesToHyphens(s[1..])
  }

  /** The string without its leading hyphens. */
  function DropHyphens(s: string): (r: string)
    ensures |r| <= |s|
    ensures r == [] || r[0] != '-'
    ensures forall i :: 0 <= i < |r| ==> r[i] in s
    ensures forall c :: c in s && c != '-' ==> c in r
  {
    if s != [] && s[0] == '-' then DropHyphens(s[1..]) else s
  }

  predicate NoDoubleHyphen(s: string) {
    forall i :: 0 <= i < |s| - 1 ==> !(s[i] == '-' && s[i + 1] == '-')
  }

  /** `.replace(/-+/g, '-')`. */
  function CollapseHyphens(s: string): (r: string)
    ensures NoDoubleHyphen(r)
    ensures forall i :: 0 <= i < |r| ==> r[i] in s
    ensures forall c :: c in s && c != '-' ==> c in r
    ensures r == [] <==> s == []
    ensures r != [] ==> (r[0] == '-' <==> s[0] == '-')
    decreases |s|
  {
    if s == [] then []
    else if s[0] == '-' then "-" + CollapseHyphens(DropHyphens(s[1..]))
    else [s[0]] + CollapseHyphens(s[1..])
  }

  /** The string without its trailing white space. */
  function DropTrailingSpaces(s: string): string {
    if s != [] && IsJsSpace(s[|s| - 1]) then DropTrailingSpaces(s[..|s| - 1]) else s
  }

  /** `.trim()`. */
  function Trim(s: string): string {
    DropTrailingSpaces(DropSpaces(s))
  }

  /** A string with no white space is its own trim: the final `.trim()` of
      `generateSlug` never removes anything, so a title that starts or ends
      with a space gives a slug that starts or ends with `-`. */
  lemma TrimWithoutSpaces(s: string)
    requires forall i :: 0 <= i < |s| ==> !IsJsSpace(s[i])
    ensures Trim(s) == s
  {
  }

  /** generateSlug. */
  function GenerateSlug(title: string): (slug: string)
    ensures forall i :: 0 <= i < |slug| ==> IsSlugOutputChar(slug[i]) && !IsUpper(slug[i])
    ensures NoDoubleHyphen(slug)
  {
    var hyphenated := CollapseHyphens(SpacesToHyphens(StripDisallowed(LowerAll(title))));
    TrimWithoutSpaces(hyphenated);
    Trim(hyphenated)
  }

  /** A character that is neither white space nor a hyphen: the passes
      after the filter only ever touch the others. */
  predicate IsWordChar(c: char) {
    !IsJsSpace(c) && c != '-'
  }

  /** The word characters of a string, in order. */
  function WordChars(s: string): string {
    Filter(s, IsWordChar)
  }

  lemma WordCharsCons(c: char, s: string)
    ensures WordChars([c] + s) == if IsWordChar(c) then [c] + WordChars(s) else WordChars(s)
  {
    assert ([c] + s)[1..] == s;
  }

  lemma {:induction false} DropSpacesWordChars(s: string)
    ensures WordChars(DropSpaces(s)) == WordChars(s)
  {
    if s != [] && IsJsSpace(s[0]) {
      DropSpacesWordChars(s[1..]);
      WordCharsCons(s[0], s[1..]);
      assert s == [s[0]] + s[1..];
    }
  }

  lemma {:induction false} DropHyphensWordChars(s: string)
    ensures WordChars(DropHyphens(s)) == WordChars(s)
  {
    if s != [] && s[0] == '-' {
      DropHyphensWordChars(s[1..]);
      WordCharsCons(s[0], s[1..]);
      assert s == [s[0]] + s[1..];
    }
  }

  /** Turning white-space runs into hyphens keeps the word characters. */
  lemma {:induction false} SpacesToHyphensWordChars(s: string)
    ensures WordChars(SpacesToHyphens(s)) == WordChars(s)
    decreases |s|
  {
    if s != [] {
      assert s == [s[0]] + s[1..];
      WordCharsCons(s[0], s[1..]);
      if IsJsSpace(s[0]) {
        var rest := DropSpaces(s[1..]);
        SpacesToHyphensWordChars(rest);
        DropSpacesWordChars(s[1..]);
        WordCharsCons('-', SpacesToHyphens(rest));
      } else {
        SpacesToHyphensWordChars(s[1..]);
        WordCharsCons(s[0], SpacesToHyphens(s[1..]));
      }
    }
  }

  /** Collapsing hyphen runs keeps the word characters. */
  lemma {:induction false} CollapseHyphensWordChars(s: string)
    ensures WordChars(CollapseHyphens(s)) == WordChars(s)
    decreases |s|
  {
    if s != [] {
      assert s == [s[0]] + s[1..];
      WordCharsCons(s[0], s[1..]);
      if s[0] == '-' {
        var rest := DropHyphens(s[1..]);
        CollapseHyphensWordChars(rest);
        DropHyphensWordChars(s[1..]);
        WordCharsCons('-', CollapseHyphens(rest));
      } else {
        CollapseHyphensWordChars(s[1..]);
        WordCharsCons(s[0], CollapseHyphens(s[1..]));
      }
    }
  }

  /** The slug keeps every letter and digit of the lower-cased title that
      the filter lets through, in the title's order: apart from hyphens,
      the slug is exactly the filtered, lower-cased title. */
  lemma GenerateSlugWordChars(title: string)
    ensures WordChars(GenerateSlug(title)) == WordChars(StripDisallowed(LowerAll(title)))
  {
    var stripped := StripDisallowed(LowerAll(title));
    var spaced := SpacesToHyphens(stripped);
    var collapsed := CollapseHyphens(spaced);
    TrimWithoutSpaces(collapsed);
    assert GenerateSlug(title) == collapsed;
    SpacesToHyphensWordChars(stripped);
    CollapseHyphensWordChars(spaced);
  }

  /** Any character of the title that lower-cases to a kept letter or
      digit (`a`-`z`, `0`-`9`, `а`-`я`, `ё`) appears in the slug. */
  lemma KeptCharSurvives(title: string, i: nat)
    requires i < |title| && IsKeptChar(Lower(title[i])) && IsWordChar(Lower(title[i]))
    ensures Lower(title[i]) in GenerateSlug(title)
  {
    var c := Lower(title[i]);
    var lowered := LowerAll(title);
    assert lowered[i] == c;
    var stripped := StripDisallowed(lowered);
    assert c in stripped;
    assert c in WordChars(stripped);
    GenerateSlugWordChars(title);
    assert c in WordChars(GenerateSlug(title));
  }

  /** A Russian letter in the title survives into the slug, so the slug
      rule `^[a-z0-9-]+$` refuses every slug generated from such a title. */
  lemma CyrillicSurvives(title: string, i: nat)
    requires i < |title| && IsCyrillicLetter(title[i])
    ensures exists j :: 0 <= j < |GenerateSlug(title)| && IsCyrillicLower(GenerateSlug(title)[j])
  {
    var c := Lower(title[i]);
    assert IsCyrillicLower(c);
    KeptCharSurvives(title, i);
    var slug := GenerateSlug(title);
    var j :| 0 <= j < |slug| && slug[j] == c;
  }

  lemma {:induction false} SpacesToHyphensWithoutSpaces(s: string)
    requires forall i :: 0 <= i < |s| ==> !IsJsSpace(s[i])
    ensures SpacesToHyphens(s) == s
  {
    if s != [] {
      SpacesToHyphensWithoutSpaces(s[1..]);
    }
  }

  lemma {:induction false} CollapseWithoutDoubles(s: string)
    requires NoDoubleHyphen(s)
    ensures CollapseHyphens(s) == s
  {
    if s != [] {
      assert NoDoubleHyphen(s[1..]) by {
        forall k | 0 <= k < |s[1..]| - 1 ensures !(s[1..][k] == '-' && s[1..][k + 1] == '-') {
          assert s[1..][k] == s[k + 1] && s[1..][k + 1] == s[k + 2];
        }
      }
      CollapseWithoutDoubles(s[1..]);
      if s[0] == '-' {
        assert s[1..] == [] || s[1..][0] == s[1];
      }
    }
  }

  /** A generated slug is its own slug: every pass leaves it unchanged. */
  lemma GenerateSlugIdempotent(title: string)
    ensures GenerateSlug(GenerateSlug(title)) == GenerateSlug(title)
  {
    var s := GenerateSlug(title);
    assert LowerAll(s) == s;
    assert StripDisallowed(s) == s;
    SpacesToHyphensWithoutSpaces(s);
    CollapseWithoutDoubles(s);
    TrimWithoutSpaces(s);
  }
}
