/** The slug pipeline that the post editor and the category editor both
    apply to a title or a name:

      toLowerCase() . normalize("NFD") . replace(/[̀-ͯ]/g, "")
                   . replace(/[^\w\s-]/g, "") . replace(/[-\s]+/g, "-") . trim()

    Case mapping and canonical decomposition are modelled exactly on ASCII
    and Latin-1 (U+0000 to U+00FF); every other character is taken to be its
    own lower case and its own decomposition. `\w` (no `u` flag) is
    [A-Za-z0-9_] and `\s` is ECMAScript's WhiteSpace and LineTerminator
    set. */
module Slug {
  import opened Seqs

  predicate IsAsciiUpper(c: char) { 'A' <= c <= 'Z' }

  /** Latin-1 capitals: U+00C0 to U+00DE except the multiplication sign. */
  predicate IsLatin1Upper(c: char) { '\U{00C0}' <= c <= '\U{00DE}' && c != '\U{00D7}' }

  predicate IsUpper(c: char) { IsAsciiUpper(c) || IsLatin1Upper(c) }

  predicate NoUpper(s: string) { forall i :: 0 <= i < |s| ==> !IsUpper(s[i]) }

  /** `toLowerCase` on one character: each capital above maps 32 code points up. */
  function LowerChar(c: char): (d: char)
    ensures !IsUpper(d)
    ensures !IsUpper(c) ==> d == c
  {
    if IsUpper(c) then (c as int + 32) as char else c
  }

  function Lower(s: string): (r: string)
    ensures |r| == |s|
    ensures forall i :: 0 <= i < |s| ==> r[i] == LowerChar(s[i])
    ensures NoUpper(r)
  {
    seq(|s|, i requires 0 <= i < |s| => LowerChar(s[i]))
  }

  /** Canonical decomposition of one character (Unicode's table for the
      Latin-1 letters; the identity elsewhere in the model). */
  function Nfd1(c: char): (r: string)
    ensures c < '\U{00C0}' || '\U{00FF}' < c ==> r == [c]
    ensures !IsUpper(c) ==> NoUpper(r)
  {
    match c
    case '\U{00C0}' => "A\U{0300}"  // À
    case '\U{00C1}' => "A\U{0301}"  // Á
    case '\U{00C2}' => "A\U{0302}"  // Â
    case '\U{00C3}' => "A\U{0303}"  // Ã
    case '\U{00C4}' => "A\U{0308}"  // Ä
    case '\U{00C5}' => "A\U{030A}"  // Å
    case '\U{00C7}' => "C\U{0327}"  // Ç
    case '\U{00C8}' => "E\U{0300}"  // È
    case '\U{00C9}' => "E\U{0301}"  // É
    case '\U{00CA}' => "E\U{0302}"  // Ê
    case '\U{00CB}' => "E\U{0308}"  // Ë
    case '\U{00CC}' => "I\U{0300}"  // Ì
    case '\U{00CD}' => "I\U{0301}"  // Í
    case '\U{00CE}' => "I\U{0302}"  // Î
    case '\U{00CF}' => "I\U{0308}"  // Ï
    case '\U{00D1}' => "N\U{0303}"  // Ñ
    case '\U{00D2}' => "O\U{0300}"  // Ò
    case '\U{00D3}' => "O\U{0301}"  // Ó
    case '\U{00D4}' => "O\U{0302}"  // Ô
    case '\U{00D5}' => "O\U{0303}"  // Õ
    case '\U{00D6}' => "O\U{0308}"  // Ö
    case '\U{00D9}' => "U\U{0300}"  // Ù
    case '\U{00DA}' => "U\U{0301}"  // Ú
    case '\U{00DB}' => "U\U{0302}"  // Û
    case '\U{00DC}' => "U\U{0308}"  // Ü
    case '\U{00DD}' => "Y\U{0301}"  // Ý
    case '\U{00E0}' => "a\U{0300}"  // à
    case '\U{00E1}' => "a\U{0301}"  // á
    case '\U{00E2}' => "a\U{0302}"  // â
    case '\U{00E3}' => "a\U{0303}"  // ã
    case '\U{00E4}' => "a\U{0308}"  // ä
    case '\U{00E5}' => "a\U{030A}"  // å
    case '\U{00E7}' => "c\U{0327}"  // ç
    case '\U{00E8}' => "e\U{0300}"  // è
    case '\U{00E9}' => "e\U{0301}"  // é
    case '\U{00EA}' => "e\U{0302}"  // ê
    case '\U{00EB}' => "e\U{0308}"  // ë
    case '\U{00EC}' => "i\U{0300}"  // ì
    case '\U{00ED}' => "i\U{0301}"  // í
    case '\U{00EE}' => "i\U{0302}"  // î
    case '\U{00EF}' => "i\U{0308}"  // ï
    case '\U{00F1}' => "n\U{0303}"  // ñ
    case '\U{00F2}' => "o\U{0300}"  // ò
    case '\U{00F3}' => "o\U{0301}"  // ó
    case '\U{00F4}' => "o\U{0302}"  // ô
    case '\U{00F5}' => "o\U{0303}"  // õ
    case '\U{00F6}' => "o\U{0308}"  // ö
    case '\U{00F9}' => "u\U{0300}"  // ù
    case '\U{00FA}' => "u\U{0301}"  // ú
    case '\U{00FB}' => "u\U{0302}"  // û
    case '\U{00FC}' => "u\U{0308}"  // ü
    case '\U{00FD}' => "y\U{0301}"  // ý
    case '\U{00FF}' => "y\U{0308}"  // ÿ
    case _ => [c]
  }

  /** `normalize("NFD")`. */
  function Nfd(s: string): (r: string)
    ensures NoUpper(s) ==> NoUpper(r)
  {
    if s == [] then [] else Nfd1(s[0]) + Nfd(s[1..])
  }

  predicate IsCombiningMark(c: char) { '\U{0300}' <= c <= '\U{036F}' }

  predicate NotMark(c: char) { !IsCombiningMark(c) }

  /** `replace(/[̀-ͯ]/g, "")`. */
  function StripMarks(s: string): string
  {
    Filter(s, NotMark)
  }

  /** `\w` without the `u` flag. */
  predicate IsWordChar(c: char)
  {
    'a' <= c <= 'z' || 'A' <= c <= 'Z' || '0' <= c <= '9' || c == '_'
  }

  /** `\s`: ECMAScript WhiteSpace and LineTerminator code points. */
  predicate IsSpace(c: char)
  {
    c == '\t' || c == '\n' || c == '\U{000B}' || c == '\U{000C}' || c == '\r' || c == ' '
    || c == '\U{00A0}' || c == '\U{1680}' || ('\U{2000}' <= c <= '\U{200A}')
    || c == '\U{2028}' || c == '\U{2029}' || c == '\U{202F}' || c == '\U{205F}'
    || c == '\U{3000}' || c == '\U{FEFF}'
  }

  predicate Allowed(c: char) { IsWordChar(c) || IsSpace(c) || c == '-' }

  /** `replace(/[^\w\s-]/g, "")`. */
  function KeepAllowed(s: string): string
  {
    Filter(s, Allowed)
  }

  predicate IsDashOrSpace(c: char) { c == '-' || IsSpace(c) }

  predicate NoSpace(s: string) { forall i :: 0 <= i < |s| ==> !IsSpace(s[i]) }

  /** Positions i and i + 1 of s both hold '-'. */
  predicate DashPairAt(s: string, i: int) { 0 <= i < |s| - 1 && s[i] == '-' && s[i + 1] == '-' }

  predicate NoDoubleDash(s: string) { forall i :: 0 <= i < |s| ==> !DashPairAt(s, i) }

  /** A character in front of a sequence without "--" makes no "--" unless
      both are dashes. */
  lemma NoDoubleDashCons(c: char, rest: string)
    requires NoDoubleDash(rest)
    requires c == '-' ==> rest == [] || rest[0] != '-'
    ensures NoDoubleDash([c] + rest)
  {
    var t := [c] + rest;
    forall i | 0 <= i < |t| ensures !DashPairAt(t, i) {
      if i > 0 {
        assert !DashPairAt(rest, i - 1);
      }
    }
  }

  lemma NoDoubleDashTail(s: string)
    requires s != [] && NoDoubleDash(s)
    ensures NoDoubleDash(s[1..])
    ensures s[0] == '-' ==> |s| == 1 || s[1] != '-'
  {
    forall i | 0 <= i < |s| - 1 ensures !DashPairAt(s[1..], i) {
      assert !DashPairAt(s, i + 1);
    }
    assert !DashPairAt(s, 0);
  }

  predicate Kept(c: char) { !IsDashOrSpace(c) }

  /** `replace(/[-\s]+/g, "-")`, reading left to right; inRun says that the
      previous input character was already replaced by the current "-".
      Every character other than '-' and whitespace survives, in order;
      the only dash-or-space character written is '-', never two in a
      row; the result is empty exactly when the input is, or is a single
      run that continues the current one. */
  function CollapseFrom(s: string, inRun: bool): (r: string)
    ensures Filter(r, Kept) == Filter(s, Kept)
    ensures forall i :: 0 <= i < |r| && IsDashOrSpace(r[i]) ==> r[i] == '-'
    ensures NoDoubleDash(r)
    ensures inRun ==> r == [] || r[0] != '-'
    ensures r == [] <==> (inRun && forall i :: 0 <= i < |s| ==> IsDashOrSpace(s[i])) || s == []
  {
    if s == [] then []
    else if IsDashOrSpace(s[0]) then
      var rest := CollapseFrom(s[1..], true);
      NoDoubleDashCons('-', rest);
      assert ("-" + rest)[1..] == rest;
      assert (forall i :: 0 <= i < |s[1..]| ==> IsDashOrSpace(s[1..][i])) <==>
        (forall i :: 0 <= i < |s| ==> IsDashOrSpace(s[i])) by {
        if forall i :: 0 <= i < |s[1..]| ==> IsDashOrSpace(s[1..][i]) {
          forall i | 0 <= i < |s| ensures IsDashOrSpace(s[i]) {
            if i > 0 { assert s[i] == s[1..][i - 1]; }
          }
        }
      }
      if inRun then rest else "-" + rest
    else
      var rest := CollapseFrom(s[1..], false);
      NoDoubleDashCons(s[0], rest);
      assert ([s[0]] + rest)[1..] == rest;
      [s[0]] + rest
  }

  /** Collapsing keeps every character that is not '-' or whitespace and
      writes only '-' otherwise. */
  lemma {:induction false} CollapseChars(s: string, inRun: bool, P: char -> bool)
    requires forall i :: 0 <= i < |s| ==> IsDashOrSpace(s[i]) || P(s[i])
    ensures forall i :: 0 <= i < |CollapseFrom(s, inRun)| ==>
      CollapseFrom(s, inRun)[i] == '-' || (P(CollapseFrom(s, inRun)[i]) && !IsDashOrSpace(CollapseFrom(s, inRun)[i]))
  {
    if s != [] {
      CollapseChars(s[1..], IsDashOrSpace(s[0]), P);
    }
  }

  function Collapse(s: string): string
  {
    CollapseFrom(s, false)
  }

  /** `trim()`: removes the same whitespace set as `\s` from both ends. */
  function TrimStart(s: string): (r: string)
    ensures |r| <= |s| && r == s[|s| - |r|..]
    ensures forall i :: 0 <= i < |s| - |r| ==> IsSpace(s[i])
    ensures r == [] || !IsSpace(r[0])
  {
    if s != [] && IsSpace(s[0]) then
      var r := TrimStart(s[1..]);
      assert s[1..][|s| - 1 - |r|..] == s[|s| - |r|..];
      r
    else s
  }

  function TrimEnd(s: string): (r: string)
    ensures |r| <= |s| && r == s[..|r|]
    ensures forall i :: |r| <= i < |s| ==> IsSpace(s[i])
    ensures r == [] || !IsSpace(r[|r| - 1])
  {
    if s != [] && IsSpace(s[|s| - 1]) then
      var r := TrimEnd(s[..|s| - 1]);
      assert forall i :: |r| <= i < |s| - 1 ==> s[i] == s[..|s| - 1][i];
      r
    else s
  }

  function Trim(s: string): string
  {
    TrimEnd(TrimStart(s))
  }

  predicate IsSlugChar(c: char) { 'a' <= c <= 'z' || '0' <= c <= '9' || c == '_' || c == '-' }

  /** The shape of every generated slug: only a-z, 0-9, '_' and '-', hence
      no whitespace, and never two '-' in a row. */
  predicate IsSlug(s: string)
  {
    (forall i :: 0 <= i < |s| ==> IsSlugChar(s[i])) && NoDoubleDash(s)
  }

  /** The first four stages: lowercase, decompose, drop the combining
      marks, drop what is not a word character, whitespace or '-'. */
  function Prepared(s: string): string
  {
    KeepAllowed(StripMarks(Nfd(Lower(s))))
  }

  function GenerateSlug(s: string): (r: string)
    ensures IsSlug(r)
  {
    CollapsedSlugChars(s);
    TrimNoSpace(Collapse(Prepared(s)));
    Trim(Collapse(Prepared(s)))
  }

  /** `formData.slug || generateSlug(source)`: a typed slug is kept as it
      is, unchecked; only an empty one is generated, and then it has the
      slug shape. */
  function SlugFallback(manual: string, source: string): (r: string)
    ensures manual != "" ==> r == manual
    ensures manual == "" ==> r == GenerateSlug(source) && IsSlug(r)
  {
    if manual != "" then manual else GenerateSlug(source)
  }

  /** After the collapse only slug characters remain, so the final trim
      has nothing to remove. */
  lemma CollapsedSlugChars(s: string)
    ensures forall i :: 0 <= i < |Collapse(Prepared(s))| ==> IsSlugChar(Collapse(Prepared(s))[i])
  {
    var lowered := Lower(s);
    var decomposed := Nfd(lowered);
    var stripped := StripMarks(decomposed);
    var kept := KeepAllowed(stripped);
    FilterMembers(decomposed, NotMark);
    FilterMembers(stripped, Allowed);
    forall i | 0 <= i < |kept| ensures IsDashOrSpace(kept[i]) || SlugSource(kept[i]) {
      assert kept[i] in stripped;
      assert kept[i] in decomposed;
    }
    CollapseChars(kept, false, SlugSource);
  }

  /** An allowed character that is not uppercase. */
  predicate SlugSource(c: char) { Allowed(c) && !IsUpper(c) }

  lemma TrimNoSpace(s: string)
    requires forall i :: 0 <= i < |s| ==> IsSlugChar(s[i])
    ensures Trim(s) == s
  {
    if s != [] {
      assert !IsSpace(s[0]) && !IsSpace(s[|s| - 1]);
    }
  }

  lemma {:induction false} NfdBelowLatin1(s: string)
    requires forall i :: 0 <= i < |s| ==> s[i] < '\U{00C0}'
    ensures Nfd(s) == s
  {
    if s != [] {
      NfdBelowLatin1(s[1..]);
    }
  }

  lemma {:induction false} NfdSnoc(s: string, c: char)
    ensures Nfd(s + [c]) == Nfd(s) + Nfd1(c)
  {
    if s == [] {
      assert s + [c] == [c];
    } else {
      assert (s + [c])[1..] == s[1..] + [c];
      NfdSnoc(s[1..], c);
    }
  }

  lemma {:induction false} CollapseSlug(s: string, inRun: bool)
    requires IsSlug(s)
    requires inRun ==> s == [] || s[0] != '-'
    ensures CollapseFrom(s, inRun) == s
  {
    if s != [] {
      NoDoubleDashTail(s);
      CollapseSlug(s[1..], s[0] == '-');
      assert IsDashOrSpace(s[0]) <==> s[0] == '-';
      assert s == [s[0]] + s[1..];
    }
  }

  /** Generating a slug from a slug changes nothing. */
  lemma SlugFixpoint(t: string)
    requires IsSlug(t)
    ensures GenerateSlug(t) == t
  {
    assert Lower(t) == t;
    NfdBelowLatin1(t);
    FilterAll(t, NotMark);
    FilterAll(t, Allowed);
    CollapseSlug(t, false);
    TrimNoSpace(t);
  }

  /** generateSlug is idempotent. */
  lemma SlugIdempotent(s: string)
    ensures GenerateSlug(GenerateSlug(s)) == GenerateSlug(s)
  {
    SlugFixpoint(GenerateSlug(s));
  }

  /** The trim of the last stage removes nothing from a collapsed string. */
  lemma GenerateIsCollapse(s: string)
    ensures GenerateSlug(s) == Collapse(Prepared(s))
  {
    CollapsedSlugChars(s);
    TrimNoSpace(Collapse(Prepared(s)));
  }

  /** Leading whitespace is not trimmed away: it has already become a '-'. */
  lemma LeadingSpaceGivesDash(s: string)
    requires |s| > 0 && IsSpace(s[0])
    ensures |GenerateSlug(s)| > 0 && GenerateSlug(s)[0] == '-'
  {
    PreparedStartsWithDash(s);
    CollapseStartsWithDash(Prepared(s));
    GenerateIsCollapse(s);
  }

  lemma PreparedStartsWithDash(s: string)
    requires |s| > 0 && IsSpace(s[0])
    ensures |Prepared(s)| > 0 && IsDashOrSpace(Prepared(s)[0])
  {
    SpaceSurvivesAtHead(s);
  }

  lemma CollapseStartsWithDash(s: string)
    requires |s| > 0 && IsDashOrSpace(s[0])
    ensures |Collapse(s)| > 0 && Collapse(s)[0] == '-'
  {
    assert Collapse(s) == "-" + CollapseFrom(s[1..], true);
  }

  /** A leading space passes the first four stages unchanged. */
  lemma SpaceSurvivesAtHead(s: string)
    requires |s| > 0 && IsSpace(s[0])
    ensures var kept := Prepared(s); |kept| > 0 && kept[0] == s[0]
  {
    var c := s[0];
    var lowered := Lower(s);
    assert lowered[0] == c;
    var decomposed := Nfd(lowered);
    assert |decomposed| > 0 && decomposed[0] == c by {
      assert Nfd1(c) == [c];
    }
    var stripped := StripMarks(decomposed);
    assert |stripped| > 0 && stripped[0] == c by {
      assert NotMark(c);
    }
    assert Allowed(c);
  }

  lemma {:induction false} CollapseEndsInDash(s: string, inRun: bool)
    requires |s| > 0 && IsDashOrSpace(s[|s| - 1])
    ensures var r := CollapseFrom(s, inRun); (|r| > 0 && r[|r| - 1] == '-') || (inRun && r == [])
  {
    if |s| > 1 {
      CollapseEndsInDash(s[1..], IsDashOrSpace(s[0]));
    }
  }

  /** Trailing whitespace likewise ends the slug with a '-'. */
  lemma TrailingSpaceGivesDash(s: string)
    requires |s| > 0 && IsSpace(s[|s| - 1])
    ensures |GenerateSlug(s)| > 0 && GenerateSlug(s)[|GenerateSlug(s)| - 1] == '-'
  {
    PreparedEndsWithDash(s);
    CollapseEndsInDash(Prepared(s), false);
    GenerateIsCollapse(s);
  }

  lemma PreparedEndsWithDash(s: string)
    requires |s| > 0 && IsSpace(s[|s| - 1])
    ensures |Prepared(s)| > 0 && IsDashOrSpace(Prepared(s)[|Prepared(s)| - 1])
  {
    SpaceSurvivesAtEnd(s);
  }

  /** A trailing space passes the first four stages unchanged. */
  lemma SpaceSurvivesAtEnd(s: string)
    requires |s| > 0 && IsSpace(s[|s| - 1])
    ensures var kept := Prepared(s); |kept| > 0 && kept[|kept| - 1] == s[|s| - 1]
  {
    var c := s[|s| - 1];
    var front := Lower(s)[..|s| - 1];
    assert Lower(s) == front + [c];
    assert Nfd1(c) == [c];
    NfdSnoc(front, c);
    assert NotMark(c) && Allowed(c);
    KeepSnoc(Nfd(front), c);
  }

  /** A last character that is neither a mark nor dropped stays last. */
  lemma KeepSnoc(t: string, c: char)
    requires NotMark(c) && Allowed(c)
    ensures KeepAllowed(StripMarks(t + [c])) == KeepAllowed(StripMarks(t)) + [c]
  {
    assert [c][1..] == [];
    assert Filter([c], NotMark) == [c] && Filter([c], Allowed) == [c];
    FilterConcat(t, [c], NotMark);
    FilterConcat(StripMarks(t), [c], Allowed);
  }
}
