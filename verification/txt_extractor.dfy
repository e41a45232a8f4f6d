/** The plain-text extractor: the file is cut into paragraphs at blank
    lines, each paragraph is classified as a heading, a list or a plain
    paragraph, and the current section follows the headings. The regular
    expressions of txt_extractor.py are written out as predicates on the text;
    each says when `re.match` (anchored at the start) succeeds. */
module TxtExtractor {
  import opened Wrappers
  import opened Strings
  import opened Py
  import opened Document
  import opened ContentErrors

  // ---------------------------------------------------------------------
  // Character classes

  const BigNumerals: set<char> := {'一', '二', '三', '四', '五', '六', '七', '八', '九', '十', '百', '千', '万'}
  const SmallNumerals: set<char> := {'一', '二', '三', '四', '五', '六', '七', '八', '九', '十'}
  const ChapterMarks: set<char> := {'章', '节', '篇'}
  const ListMarks: set<char> := {'.', '、'}
  const Bullets: set<char> := {'•', '-', '*'}
  const Symbols: set<char> := {'○', '●', '◆', '◇', '■', '□'}
  const ClosingPunctuation: set<char> := {'。', '，', '！', '？'}

  predicate IsUpper(c: char) { 'A' <= c <= 'Z' }
  predicate IsLower(c: char) { 'a' <= c <= 'z' }
  predicate IsBigNumeral(c: char) { c in BigNumerals }
  predicate IsSmallNumeral(c: char) { c in SmallNumerals }
  predicate IsDigitOrNumeral(c: char) { IsDigit(c) || c in SmallNumerals }

  /** The end of the run of `cls` characters starting at `i`. */
  function Span(s: string, i: nat, cls: char -> bool): (j: nat)
    requires i <= |s|
    ensures i <= j <= |s|
    ensures forall k :: i <= k < j ==> cls(s[k])
    ensures j == |s| || !cls(s[j])
    decreases |s| - i
  {
    if i == |s| || !cls(s[i]) then i else Span(s, i + 1, cls)
  }

  /** `\s*[^\n]+` (with `needSpace`, `\s+[^\n]+`) matches at `i`: within the
      whitespace run starting at `i`, or just after it, there is a position
      holding something other than a newline. */
  predicate SpaceThenLine(s: string, i: nat, needSpace: bool)
    requires i <= |s|
  {
    var e := SkipSpaces(s, i);
    exists m :: i + (if needSpace then 1 else 0) <= m <= e && m < |s| && s[m] != '\n'
  }

  // ---------------------------------------------------------------------
  // Heading patterns, in txt_extractor.py's order

  /** `^第[一二三四五六七八九十百千万]+[章节篇]` */
  predicate Chapter(s: string) {
    |s| >= 1 && s[0] == '第' && var k := Span(s, 1, IsBigNumeral); k > 1 && k < |s| && s[k] in ChapterMarks
  }

  /** `^第[一二三四五六七八九十百千万]+[章节篇]\s+[^\n]+` */
  predicate ChapterWithTitle(s: string) {
    Chapter(s) && SpaceThenLine(s, Span(s, 1, IsBigNumeral) + 1, true)
  }

  /** `^\d+\.\s+[^\n]+` */
  predicate Numbered(s: string) {
    var k := Span(s, 0, IsDigit); k >= 1 && k < |s| && s[k] == '.' && SpaceThenLine(s, k + 1, true)
  }

  /** `^\d+\.\d+\.\s+[^\n]+` */
  predicate NumberedTwice(s: string) {
    var k := Span(s, 0, IsDigit);
    k >= 1 && k < |s| && s[k] == '.' &&
    var k2 := Span(s, k + 1, IsDigit);
    k2 >= k + 2 && k2 < |s| && s[k2] == '.' && SpaceThenLine(s, k2 + 1, true)
  }

  /** `^[A-Z][a-z]+\s+[^\n]+` */
  predicate Capitalised(s: string) {
    |s| >= 1 && IsUpper(s[0]) && var k := Span(s, 1, IsLower); k >= 2 && SpaceThenLine(s, k, true)
  }

  /** `^[A-Z][A-Z\s]+$`: an upper-case letter, then upper-case letters and whitespace to the end. */
  predicate AllCaps(s: string) {
    |s| >= 2 && IsUpper(s[0]) && forall j :: 1 <= j < |s| ==> IsUpper(s[j]) || IsSpace(s[j])
  }

  /** `^[一二三四五六七八九十]+、\s*[^\n]+` */
  predicate ChineseNumbered(s: string) {
    var k := Span(s, 0, IsSmallNumeral); k >= 1 && k < |s| && s[k] == '、' && SpaceThenLine(s, k + 1, false)
  }

  /** `^【[^】]+】` and its three siblings with other brackets: an opening
      bracket, at least one other character, then the closing bracket. */
  predicate Bracketed(s: string, open: char, close: char) {
    |s| >= 3 && s[0] == open && s[1] != close && close in s[2..]
  }

  predicate AnyHeadingPattern(s: string) {
    Chapter(s) || ChapterWithTitle(s) || Numbered(s) || NumberedTwice(s) || Capitalised(s) || AllCaps(s)
    || ChineseNumbered(s) || Bracketed(s, '【', '】') || Bracketed(s, '[', ']') || Bracketed(s, '（', '）')
    || Bracketed(s, '(', ')')
  }

  /** The level of the first heading pattern that matches. */
  function PatternLevel(s: string): (r: Option<int>)
    ensures r.Some? <==> AnyHeadingPattern(s)
    ensures r.Some? ==> r.value in {1, 2, 3}
    ensures r == Some(3) <==> NumberedTwice(s) && !Chapter(s) && !ChapterWithTitle(s) && !Numbered(s)
  {
    if Chapter(s) then Some(1)
    else if ChapterWithTitle(s) then Some(1)
    else if Numbered(s) then Some(2)
    else if NumberedTwice(s) then Some(3)
    else if Capitalised(s) then Some(2)
    else if AllCaps(s) then Some(1)
    else if ChineseNumbered(s) || Bracketed(s, '【', '】') || Bracketed(s, '[', ']')
            || Bracketed(s, '（', '）') || Bracketed(s, '(', ')') then Some(2)
    else None
  }

  /** `_get_heading_level`: the first matching pattern's level, else 1. */
  function HeadingLevel(s: string): (r: int)
    ensures r in {1, 2, 3}
    ensures AnyHeadingPattern(s) ==> Some(r) == PatternLevel(s)
  {
    PatternLevel(s).GetOr(1)
  }

  // ---------------------------------------------------------------------
  // List patterns, in txt_extractor.py's order

  /** `^\d+[\.、]\s*[^\n]+` */
  predicate NumberItem(s: string) {
    var k := Span(s, 0, IsDigit); k >= 1 && k < |s| && s[k] in ListMarks && SpaceThenLine(s, k + 1, false)
  }

  /** `^[a-z][\.、]\s*[^\n]+` and `^[A-Z][\.、]\s*[^\n]+` */
  predicate LetterItem(s: string, upper: bool) {
    |s| >= 2 && (if upper then IsUpper(s[0]) else IsLower(s[0])) && s[1] in ListMarks && SpaceThenLine(s, 2, false)
  }

  /** `^[一二三四五六七八九十]+[\.、]\s*[^\n]+` */
  predicate ChineseItem(s: string) {
    var k := Span(s, 0, IsSmallNumeral); k >= 1 && k < |s| && s[k] in ListMarks && SpaceThenLine(s, k + 1, false)
  }

  /** `^[•\-\*]\s*[^\n]+` and `^[○●◆◇■□]\s*[^\n]+` */
  predicate MarkedItem(s: string, marks: set<char>) {
    |s| >= 1 && s[0] in marks && SpaceThenLine(s, 1, false)
  }

  /** `_is_list_item`: some list pattern matches. */
  predicate IsListItem(s: string) {
    NumberItem(s) || LetterItem(s, false) || LetterItem(s, true) || ChineseItem(s)
    || MarkedItem(s, Bullets) || MarkedItem(s, Symbols)
  }

  /** `_get_list_type`: the type of the first matching pattern; `None`
      stands for 'unknown'. */
  function ListTypeOf(s: string): (r: Option<ListType>)
    ensures r.Some? <==> IsListItem(s)
  {
    if NumberItem(s) then Some(Number)
    else if LetterItem(s, false) then Some(Alpha)
    else if LetterItem(s, true) then Some(AlphaUpper)
    else if ChineseItem(s) then Some(Chinese)
    else if MarkedItem(s, Bullets) then Some(Bullet)
    else if MarkedItem(s, Symbols) then Some(Symbol)
    else None
  }

  /** `_is_heading`: short, not closed by sentence punctuation, not a list
      item, and matching a heading pattern. txt_extractor.py indexes the last
      character, so it is only ever called on non-empty text. */
  predicate IsHeading(s: string)
    requires s != ""
  {
    !(|s| > 100 || s[|s| - 1] in ClosingPunctuation) && !IsListItem(s) && AnyHeadingPattern(s)
  }

  // ---------------------------------------------------------------------
  // Facts about the patterns

  /** A numbered heading ("1. Intro", "1.2. Scope") is always a numbered
      list item as well, so it can never be classified as a heading. */
  lemma NumberedHeadingsAreListItems(s: string)
    requires Numbered(s) || NumberedTwice(s)
    ensures NumberItem(s) && IsListItem(s)
  {
    var k := Span(s, 0, IsDigit);
    assert s[k] in ListMarks;
    if Numbered(s) {
      SpaceThenLineWeaker(s, k + 1);
    } else {
      assert SkipSpaces(s, k + 1) == k + 1 by { assert IsDigit(s[k + 1]); }
      assert s[k + 1] != '\n' by { assert IsDigit(s[k + 1]); }
    }
  }

  /** `\s+[^\n]+` matching implies `\s*[^\n]+` matching. */
  lemma SpaceThenLineWeaker(s: string, i: nat)
    requires i <= |s| && SpaceThenLine(s, i, true)
    ensures SpaceThenLine(s, i, false)
  {
  }

  /** Likewise "一、概述" is always a Chinese list item. */
  lemma ChineseNumberedHeadingsAreListItems(s: string)
    requires ChineseNumbered(s)
    ensures ChineseItem(s) && IsListItem(s)
  {
  }

  /** The second chapter pattern only refines the first. */
  lemma ChapterWithTitleIsChapter(s: string)
    requires ChapterWithTitle(s)
    ensures Chapter(s)
  {
  }

  /** Although the patterns include a level-3 one, a paragraph classified
      as a heading always gets level 1 or 2. */
  lemma HeadingLevelIsOneOrTwo(s: string)
    requires s != "" && IsHeading(s)
    ensures HeadingLevel(s) in {1, 2}
  {
    if HeadingLevel(s) == 3 {
      NumberedHeadingsAreListItems(s);
    }
  }

  // ---------------------------------------------------------------------
  // List items

  /** `re.sub(r'^[\d一二三四五六七八九十]+[\.、]', '', line)` */
  function DropNumber(line: string): (r: string)
    ensures |r| <= |line| && r == line[|line| - |r|..]
  {
    var k := Span(line, 0, IsDigitOrNumeral);
    if k >= 1 && k < |line| && line[k] in ListMarks then line[k + 1..] else line
  }

  /** `re.sub(r'^[•\-\*○●◆◇■□]\s*', '', item)` */
  function DropBullet(item: string): (r: string)
    ensures |r| <= |item| && r == item[|item| - |r|..]
  {
    if |item| >= 1 && (item[0] in Bullets || item[0] in Symbols) then item[SkipSpaces(item, 1)..] else item
  }

  /** The item one line contributes: none for a blank or untyped line. */
  function ItemOf(line: string): (r: Option<ListItem>)
    ensures r.Some? <==> Trim(line) != "" && IsListItem(Trim(line))
    ensures r.Some? ==> Some(r.value.kind) == ListTypeOf(Trim(line)) && Unpadded(r.value.text)
  {
    var l := Trim(line);
    if l == "" then None
    else
      match ListTypeOf(l)
      case None => None
      case Some(t) => Some(ListItem(Trim(DropBullet(DropNumber(l))), t))
  }

  function ItemsOfLines(lines: seq<string>): (r: seq<ListItem>)
    ensures |r| <= |lines|
  {
    Somes(Map(ItemOf, lines))
  }

  /** `_extract_list_items`: the items of the typed lines, in order. */
  function ListItems(text: string): (r: seq<ListItem>)
    ensures |r| <= CountChar(text, '\n') + 1
  {
    SplitCount(text, '\n');
    ItemsOfLines(SplitOn(text, "\n"))
  }

  /** The items of consecutive groups of lines are the items of each group, in order. */
  lemma ItemsOfLinesAppend(a: seq<string>, b: seq<string>)
    ensures ItemsOfLines(a + b) == ItemsOfLines(a) + ItemsOfLines(b)
  {
    MapAppend(ItemOf, a, b);
    SomesAppend(Map(ItemOf, a), Map(ItemOf, b));
  }

  /** Every item's text is free of surrounding whitespace. */
  lemma ItemsAreUnpadded(lines: seq<string>)
    ensures forall x :: x in ItemsOfLines(lines) ==> Unpadded(x.text)
  {
    SomesFrom(Map(ItemOf, lines));
  }

  /** A group of lines yields no item exactly when no line of it is a list item. */
  lemma NoItems(lines: seq<string>)
    ensures ItemsOfLines(lines) == [] <==> forall i :: 0 <= i < |lines| ==> ItemOf(lines[i]).None?
  {
    SomesFrom(Map(ItemOf, lines));
  }

  /** "3. text" is a numbered item whose text is `text`. */
  lemma NumberedLine(digits: string, text: string)
    requires digits != [] && forall i :: 0 <= i < |digits| ==> IsDigit(digits[i])
    requires text != [] && Unpadded(text)
    ensures ItemOf(digits + ". " + text) == Some(ListItem(text, Number))
  {
    var l := digits + ". " + text;
    NumberedLineTrimmed(digits, text);
    NumberedLineIsItem(digits, text);
    NumberedLineDropped(digits, text);
    TrimPadding(" ", text, "");
    assert " " + text + "" == " " + text;
  }

  lemma NumberedLineTrimmed(digits: string, text: string)
    requires digits != [] && forall i :: 0 <= i < |digits| ==> IsDigit(digits[i])
    requires text != [] && Unpadded(text)
    ensures Trim(digits + ". " + text) == digits + ". " + text
  {
    var l := digits + ". " + text;
    assert l[0] == digits[0] && l[|l| - 1] == text[|text| - 1];
    assert Unpadded(l) by { assert IsDigit(digits[0]); }
    UnpaddedIsTrimmed(l);
  }

  lemma NumberedLineIsItem(digits: string, text: string)
    requires digits != [] && forall i :: 0 <= i < |digits| ==> IsDigit(digits[i])
    requires text != [] && Unpadded(text)
    ensures ListTypeOf(digits + ". " + text) == Some(Number)
  {
    var l := digits + ". " + text;
    var n := |digits|;
    assert l[n] == '.' && l[n + 1] == ' ' && l[n + 2] == text[0];
    SpanFrom(l, 0, n, IsDigit);
    assert SkipSpaces(l, n + 1) == n + 2 by {
      assert !IsSpace(l[n + 2]);
      SkipSpacesTo(l, n + 1, n + 2);
    }
    assert NumberItem(l);
  }

  lemma NumberedLineDropped(digits: string, text: string)
    requires digits != [] && forall i :: 0 <= i < |digits| ==> IsDigit(digits[i])
    requires text != [] && Unpadded(text)
    ensures DropBullet(DropNumber(digits + ". " + text)) == " " + text
  {
    var l := digits + ". " + text;
    var n := |digits|;
    assert l[n] == '.' && l[n + 1..] == " " + text;
    assert forall k :: 0 <= k < n ==> IsDigitOrNumeral(l[k]) by {
      assert forall k :: 0 <= k < n ==> l[k] == digits[k];
    }
    DropNumberAt(l, n);
    SpaceIsNoBullet(text);
  }

  /** A number of `n` characters followed by a list mark is dropped with the mark. */
  lemma DropNumberAt(l: string, n: nat)
    requires 1 <= n < |l| && l[n] in ListMarks
    requires forall k :: 0 <= k < n ==> IsDigitOrNumeral(l[k])
    ensures DropNumber(l) == l[n + 1..]
  {
    assert !IsDigitOrNumeral(l[n]);
    SpanFrom(l, 0, n, IsDigitOrNumeral);
  }

  /** A text starting with a space has no bullet to drop. */
  lemma SpaceIsNoBullet(text: string)
    ensures DropBullet(" " + text) == " " + text
  {
    assert (" " + text)[0] == ' ';
  }

  /** "• text" is a bullet item whose text is `text`. */
  lemma BulletLine(text: string)
    requires text != [] && Unpadded(text)
    ensures ItemOf("• " + text) == Some(ListItem(text, Bullet))
  {
    var l := "• " + text;
    assert l[0] == '•' && l[|l| - 1] == text[|text| - 1];
    UnpaddedIsTrimmed(l);
    assert SkipSpaces(l, 1) == 2 by { assert l[1] == ' ' && l[2] == text[0]; }
    assert Span(l, 0, IsDigit) == 0;
    assert Span(l, 0, IsSmallNumeral) == 0;
    assert Span(l, 0, IsDigitOrNumeral) == 0;
    assert ListTypeOf(l) == Some(Bullet);
    assert DropNumber(l) == l;
    assert l[2..] == text;
    UnpaddedIsTrimmed(text);
  }

  lemma {:induction false} SpanFrom(l: string, i: nat, n: nat, cls: char -> bool)
    requires i <= n < |l| && !cls(l[n]) && forall k :: i <= k < n ==> cls(l[k])
    ensures Span(l, i, cls) == n
    decreases n - i
  {
    if i < n {
      SpanFrom(l, i + 1, n, cls);
    }
  }

  // ---------------------------------------------------------------------
  // Paragraphs and sections

  /** The paragraphs of a text: the pieces between blank-line separators
      (`"\n\n"`), trimmed, blank ones dropped. */
  function Paragraphs(content: string): (r: seq<string>)
    ensures forall i :: 0 <= i < |r| ==> r[i] != [] && Unpadded(r[i])
  {
    TrimmedNonBlank(SplitOn(content, "\n\n"))
  }

  /** Trimmed, non-empty, single-line paragraphs joined by blank lines are
      recovered as they were. */
  lemma ParagraphsOfJoin(ps: seq<string>)
    requires |ps| > 0
    requires forall i :: 0 <= i < |ps| ==> ps[i] != [] && Unpadded(ps[i]) && '\n' !in ps[i]
    ensures Paragraphs(Join(ps, "\n\n")) == ps
  {
    SplitJoin(ps, "\n\n");
    TrimmedNonBlankKeeps(ps);
  }

  /** A paragraph that is a list item but none of whose lines is one: it
      produces no entry at all. */
  predicate ItemlessList(p: string)
    requires p != ""
  {
    !IsHeading(p) && IsListItem(p) && ListItems(p) == []
  }

  /** What one paragraph contributes: a heading entry naming its own
      section, a list entry typed by its first item, a paragraph entry, or
      nothing for an item-less list. */
  function EntryOf(p: string, section: string): (r: Option<Entry>)
    requires p != ""
    ensures r.None? <==> ItemlessList(p)
    ensures r.Some? ==> r.value.page.None?
    ensures r.Some? && r.value.body.Heading? <==> IsHeading(p)
    ensures r.Some? && r.value.body.Heading? ==> r.value.section == p && r.value.body.level in {1, 2}
    ensures r.Some? && !r.value.body.Heading? ==> r.value.section == section
    ensures r.Some? && r.value.body.ListBlock? ==>
      r.value.body.items != [] && r.value.body.listType == r.value.body.items[0].kind
    ensures r.Some? ==> !r.value.body.Table?
  {
    if IsHeading(p) then
      HeadingLevelIsOneOrTwo(p);
      Some(Entry(p, Heading(HeadingLevel(p)), None))
    else if IsListItem(p) then
      var items := ListItems(p);
      if items == [] then None else Some(Entry(section, ListBlock(items, items[0].kind), None))
    else Some(Entry(section, Paragraph(p), None))
  }

  /** The section after a paragraph: the paragraph itself when it is a heading. */
  function NextSection(p: string, section: string): string
    requires p != ""
  {
    if IsHeading(p) then p else section
  }

  function AsSeq(o: Option<Entry>): (r: seq<Entry>)
    ensures o.None? ==> r == []
    ensures o.Some? ==> r == [o.value]
  {
    if o.Some? then [o.value] else []
  }

  /** The entries of a run of paragraphs, the section starting at `section`. */
  function Walk(ps: seq<string>, section: string): (r: seq<Entry>)
    requires forall i :: 0 <= i < |ps| ==> ps[i] != ""
    ensures |r| <= |ps|
    decreases |ps|
  {
    if |ps| == 0 then []
    else AsSeq(EntryOf(ps[0], section)) + Walk(ps[1..], NextSection(ps[0], section))
  }

  /** The section in force after a run of paragraphs. */
  function SectionAfter(ps: seq<string>, section: string): string
    requires forall i :: 0 <= i < |ps| ==> ps[i] != ""
    decreases |ps|
  {
    if |ps| == 0 then section else SectionAfter(ps[1..], NextSection(ps[0], section))
  }

  /** `_extract_content`: the entries of the text's paragraphs, starting in
      the untitled section. */
  function ExtractContent(content: string): (r: seq<Entry>)
    ensures |r| <= |Paragraphs(content)|
  {
    Walk(Paragraphs(content), Untitled)
  }

  lemma {:induction false} WalkSections(ps: seq<string>, section: string)
    requires forall i :: 0 <= i < |ps| ==> ps[i] != ""
    ensures SectionsFollowHeadings(Walk(ps, section), section)
    decreases |ps|
  {
    if |ps| > 0 {
      var next := NextSection(ps[0], section);
      WalkSections(ps[1..], next);
      var head := AsSeq(EntryOf(ps[0], section));
      var r := Walk(ps, section);
      if head != [] {
        assert r[0] == head[0] && r[1..] == Walk(ps[1..], next);
      } else {
        assert r == Walk(ps[1..], next);
      }
    }
  }

  /** The entries of two runs of paragraphs are those of the first followed
      by those of the second, read in the section the first leaves open. */
  lemma {:induction false} WalkAppend(a: seq<string>, b: seq<string>, section: string)
    requires forall i :: 0 <= i < |a| ==> a[i] != ""
    requires forall i :: 0 <= i < |b| ==> b[i] != ""
    ensures forall i :: 0 <= i < |a + b| ==> (a + b)[i] != ""
    ensures Walk(a + b, section) == Walk(a, section) + Walk(b, SectionAfter(a, section))
    decreases |a|
  {
    NonEmptyAppend(a, b);
    if |a| == 0 {
      assert a + b == b;
    } else {
      assert (a + b)[0] == a[0];
      assert (a + b)[1..] == a[1..] + b;
      WalkAppend(a[1..], b, NextSection(a[0], section));
    }
  }

  lemma NonEmptyAppend(a: seq<string>, b: seq<string>)
    requires forall i :: 0 <= i < |a| ==> a[i] != ""
    requires forall i :: 0 <= i < |b| ==> b[i] != ""
    ensures forall i :: 0 <= i < |a + b| ==> (a + b)[i] != ""
  {
    forall i | 0 <= i < |a + b| ensures (a + b)[i] != "" {
      if i >= |a| { assert (a + b)[i] == b[i - |a|]; }
    }
  }

  /** No entry comes out exactly when every paragraph is an item-less list. */
  lemma {:induction false} WalkEmpty(ps: seq<string>, section: string)
    requires forall i :: 0 <= i < |ps| ==> ps[i] != ""
    ensures Walk(ps, section) == [] <==> forall i :: 0 <= i < |ps| ==> ItemlessList(ps[i])
    decreases |ps|
  {
    if |ps| > 0 {
      var next := NextSection(ps[0], section);
      WalkEmpty(ps[1..], next);
      var head := AsSeq(EntryOf(ps[0], section));
      assert Walk(ps, section) == head + Walk(ps[1..], next);
      if ItemlessList(ps[0]) {
        assert head == [];
        ItemlessTail(ps);
      } else {
        assert |head| == 1;
      }
    }
  }

  lemma ItemlessTail(ps: seq<string>)
    requires |ps| > 0 && forall i :: 0 <= i < |ps| ==> ps[i] != ""
    requires ItemlessList(ps[0])
    ensures (forall i :: 0 <= i < |ps| ==> ItemlessList(ps[i]))
      <==> forall i :: 0 <= i < |ps| - 1 ==> ItemlessList(ps[1..][i])
  {
    assert forall i :: 1 <= i < |ps| ==> ps[i] == ps[1..][i - 1];
  }

  /** A paragraph closed by sentence punctuation, and not a list, stays a
      paragraph of the current section, whatever heading pattern it matches. */
  lemma PunctuatedParagraph(p: string, section: string)
    requires p != "" && p[|p| - 1] in ClosingPunctuation && !IsListItem(p)
    ensures Walk([p], section) == [Entry(section, Paragraph(p), None)]
  {
    assert [p][1..] == [];
  }

  /** A chapter line followed by a sentence on the next line, as in the
      repository's own sample text, is read as a paragraph, not a heading. */
  lemma ChapterWithSentenceIsParagraph()
    ensures Walk(["第一章 引言\n这是第一章节的内容。"], Untitled)
            == [Entry(Untitled, Paragraph("第一章 引言\n这是第一章节的内容。"), None)]
  {
    var p := "第一章 引言\n这是第一章节的内容。";
    assert p[0] == '第' && !IsDigit(p[0]) && !IsSmallNumeral(p[0]);
    assert p[|p| - 1] == '。';
    assert !IsListItem(p);
    PunctuatedParagraph(p, Untitled);
  }

  /** The paragraphs of the repository's sample chapter text: two chapters,
      each opening with its title line and a sentence, a numbered list, a
      bulleted list and a closing paragraph. */
  const SampleParagraphs: seq<string> := [
    "第一章 引言\n这是第一章节的内容。",
    "1. 第一个要点\n2. 第二个要点\n3. 第三个要点",
    "第二章 主要内容\n这是第二章节的内容。",
    "• 项目一\n• 项目二\n• 项目三",
    "这是最后一个段落。"]

  /** The repository's sample chapter text (tests/test_txt_extractor.py:23-37):
      its five paragraphs, joined by blank lines as the test's literal is. */
  const SampleText: string :=
    SampleParagraphs[0] + "\n\n" + SampleParagraphs[1] + "\n\n" + SampleParagraphs[2] + "\n\n"
    + SampleParagraphs[3] + "\n\n" + SampleParagraphs[4]

  /** Trimmed paragraphs without blank lines, joined by blank lines, are
      recovered as they were. */
  lemma ParagraphsOfBlankLineJoin(ps: seq<string>)
    requires |ps| > 0
    requires forall i :: 0 <= i < |ps| ==> ps[i] != [] && Unpadded(ps[i]) && NoBlankLine(ps[i])
    ensures Paragraphs(Join(ps, "\n\n")) == ps
  {
    SplitJoinParagraphs(ps);
    TrimmedNonBlankKeeps(ps);
  }

  /** The sample text splits into exactly the five sample paragraphs. */
  lemma SampleTextParagraphs()
    ensures Paragraphs(SampleText) == SampleParagraphs
  {
    var ps := SampleParagraphs;
    SampleTextJoined();
    forall i | 0 <= i < |ps|
      ensures ps[i] != [] && Unpadded(ps[i]) && NoBlankLine(ps[i])
    {
      SampleParagraphShape(i);
    }
    ParagraphsOfBlankLineJoin(ps);
  }

  lemma SampleTextJoined()
    ensures SampleText == Join(SampleParagraphs, "\n\n")
  {
    var ps := SampleParagraphs;
    JoinFive(ps[0], ps[1], ps[2], ps[3], ps[4], "\n\n");
    assert ps == [ps[0], ps[1], ps[2], ps[3], ps[4]];
  }

  lemma JoinFive(a: string, b: string, c: string, d: string, e: string, sep: string)
    ensures Join([a, b, c, d, e], sep) == a + sep + b + sep + c + sep + d + sep + e
  {
    var ps := [a, b, c, d, e];
    assert ps[1..] == [b, c, d, e] && ps[2..] == [c, d, e] && ps[3..] == [d, e] && ps[4..] == [e];
    assert [b, c, d, e][1..] == [c, d, e] && [c, d, e][1..] == [d, e] && [d, e][1..] == [e];
    assert Join([d, e], sep) == d + sep + e;
    assert Join([c, d, e], sep) == c + sep + (d + sep + e);
    assert Join([b, c, d, e], sep) == b + sep + (c + sep + (d + sep + e));
    assert Join(ps, sep) == a + sep + (b + sep + (c + sep + (d + sep + e)));
  }

  lemma SampleParagraphShape(i: nat)
    requires i < |SampleParagraphs|
    ensures SampleParagraphs[i] != [] && Unpadded(SampleParagraphs[i]) && NoBlankLine(SampleParagraphs[i])
  {
    var p := SampleParagraphs[i];
    if i == 0 {
      TwoLines("第一章 引言", "这是第一章节的内容。");
    } else if i == 1 {
      ThreeLines("1. 第一个要点", "2. 第二个要点", "3. 第三个要点");
    } else if i == 2 {
      TwoLines("第二章 主要内容", "这是第二章节的内容。");
    } else if i == 3 {
      ThreeLines("• 项目一", "• 项目二", "• 项目三");
    } else {
      OneLineNoBlankLine(p);
    }
  }

  lemma TwoLines(a: string, b: string)
    requires a != [] && '\n' !in a && b != [] && '\n' !in b
    ensures NoBlankLine(a + "\n" + b)
  {
    OneLineNoBlankLine(b);
    assert b[0] in b;
    LineThenNoBlankLine(a, b);
  }

  lemma ThreeLines(a: string, b: string, c: string)
    requires a != [] && '\n' !in a && b != [] && '\n' !in b && c != [] && '\n' !in c
    ensures NoBlankLine(a + "\n" + b + "\n" + c)
  {
    TwoLines(b, c);
    assert (b + "\n" + c)[0] == b[0] && b[0] in b;
    LineThenNoBlankLine(a, b + "\n" + c);
    assert a + "\n" + b + "\n" + c == a + "\n" + (b + "\n" + c);
  }

  /** Paragraphs none of which is a heading give no heading entry. */
  lemma {:induction false} WalkWithoutHeadings(ps: seq<string>, section: string)
    requires forall i :: 0 <= i < |ps| ==> ps[i] != "" && !IsHeading(ps[i])
    ensures forall i :: 0 <= i < |Walk(ps, section)| ==> !Walk(ps, section)[i].body.Heading?
    decreases |ps|
  {
    if |ps| > 0 {
      WalkWithoutHeadings(ps[1..], NextSection(ps[0], section));
    }
  }

  /** A paragraph whose first character is none of a digit, a small Chinese
      numeral, '第', an upper-case letter or an opening bracket matches no
      heading pattern. */
  lemma NoHeadingPatternAt(p: string)
    requires |p| > 0 && !IsDigit(p[0]) && !IsSmallNumeral(p[0]) && p[0] != '第' && !IsUpper(p[0])
    requires p[0] !in {'【', '[', '（', '('}
    ensures !AnyHeadingPattern(p)
  {
    assert Span(p, 0, IsDigit) == 0 && Span(p, 0, IsSmallNumeral) == 0;
  }

  /** Every paragraph of the sample text is a sentence, a list, or both, so
      none is a heading: neither chapter title, which shares its paragraph
      with a sentence ending in 。, is classified as one, and `_extract_content`
      of the sample text yields no heading entry. */
  lemma SampleTextHasNoHeading()
    ensures forall i :: 0 <= i < |Walk(SampleParagraphs, Untitled)| ==>
      !Walk(SampleParagraphs, Untitled)[i].body.Heading?
    ensures forall i :: 0 <= i < |ExtractContent(SampleText)| ==>
      !ExtractContent(SampleText)[i].body.Heading?
  {
    SampleTextParagraphs();
    var ps := SampleParagraphs;
    forall i | 0 <= i < |ps|
      ensures ps[i] != "" && !IsHeading(ps[i])
    {
      if i == 1 {
        NumberedListIsNoHeading();
      } else if i == 3 {
        BulletListIsNoHeading();
      } else {
        SentenceIsNoHeading(ps[i]);
      }
    }
    WalkWithoutHeadings(ps, Untitled);
  }

  lemma SentenceIsNoHeading(p: string)
    requires p != "" && p[|p| - 1] == '。'
    ensures !IsHeading(p)
  {
  }

  lemma NumberedListIsNoHeading()
    ensures !IsHeading(SampleParagraphs[1])
  {
    var p := "1. 第一个要点\n2. 第二个要点\n3. 第三个要点";
    assert p == SampleParagraphs[1];
    if Numbered(p) || NumberedTwice(p) {
      NumberedHeadingsAreListItems(p);
    } else {
      assert p[0] == '1' && Span(p, 0, IsSmallNumeral) == 0;
      assert !IsUpper(p[0]) && p[0] != '第';
      assert !Bracketed(p, '【', '】') && !Bracketed(p, '[', ']') && !Bracketed(p, '（', '）') && !Bracketed(p, '(', ')');
    }
  }

  lemma BulletListIsNoHeading()
    ensures !IsHeading(SampleParagraphs[3])
  {
    var p := "• 项目一\n• 项目二\n• 项目三";
    assert p == SampleParagraphs[3];
    assert p[0] == '•';
    NoHeadingPatternAt(p);
  }

  /** A dash on a line of its own heads a list paragraph, yet no line of it
      is an item, so the paragraph vanishes. */
  lemma DashLineVanishes(section: string)
    ensures Walk(["-\nfoo"], section) == []
  {
    var p := "-\nfoo";
    assert SkipSpaces(p, 1) == 2 by { SkipSpacesTo(p, 1, 2); }
    assert MarkedItem(p, Bullets) by { assert p[2] != '\n'; }
    assert !IsHeading(p);
    DashLineItems();
    assert ListItems(p) == [];
    assert ItemlessList(p);
    WalkEmpty([p], section);
  }

  lemma DashLineItems()
    ensures ListItems("-\nfoo") == []
  {
    SplitJoin(["-", "foo"], "\n");
    assert Join(["-", "foo"], "\n") == "-\nfoo";
    DashIsNoItem();
    FooIsNoItem();
    NoItems(["-", "foo"]);
  }

  lemma DashIsNoItem()
    ensures ItemOf("-").None?
  {
    assert "-" == ['-'];
    OneCharacterIsNoItem('-');
  }

  /** A single non-space character is never a list item: every pattern
      wants something after its marker. */
  lemma OneCharacterIsNoItem(c: char)
    requires !IsSpace(c)
    ensures ItemOf([c]).None?
  {
    var s := [c];
    UnpaddedIsTrimmed(s);
    assert SkipSpaces(s, 1) == 1;
    assert !SpaceThenLine(s, 1, false);
    assert Span(s, 0, IsDigit) <= 1 && Span(s, 0, IsSmallNumeral) <= 1;
    assert !IsListItem(s);
  }

  lemma FooIsNoItem()
    ensures ItemOf("foo").None?
  {
    var f := "foo";
    assert f[0] == 'f' && f[1] == 'o' && f[2] == 'o';
    assert Unpadded(f);
    UnpaddedIsTrimmed(f);
    assert !NumberItem(f) by { assert Span(f, 0, IsDigit) == 0; }
    assert !LetterItem(f, false);
    assert !LetterItem(f, true);
    assert !ChineseItem(f) by { assert Span(f, 0, IsSmallNumeral) == 0; }
    assert !MarkedItem(f, Bullets) && !MarkedItem(f, Symbols);
  }

  // ---------------------------------------------------------------------
  // Metadata and the extractor

  /** What `os.stat` reports: the size, and the creation and modification
      times already rendered by `str()` (floating-point formatting is not
      modelled). */
  datatype FileStat = FileStat(size: nat, created: string, modified: string)

  /** The title: the first line, trimmed, unless it is over 100 characters,
      in which case the file's base name. */
  function Title(path: string, content: string): (t: string)
    ensures |t| <= 100 || t == AfterLast(path, '/')
  {
    var first := Trim(SplitOn(content, "\n")[0]);
    if |first| <= 100 then first else AfterLast(path, '/')
  }

  /** A short first line becomes the title, whatever follows it. */
  lemma ShortFirstLineIsTitle(path: string, line: string, rest: string)
    requires '\n' !in line && |Trim(line)| <= 100
    ensures Title(path, line + "\n" + rest) == Trim(line)
  {
    NewlineFirst(rest);
    SplitOnFreePrefix(line, "\n" + rest, "\n");
    assert line + "\n" + rest == line + ("\n" + rest);
    assert line + "" == line;
  }

  lemma NewlineFirst(rest: string)
    ensures SplitOn("\n" + rest, "\n")[0] == ""
  {
    assert ("\n" + rest)[..1] == "\n";
  }

  /** A first line over 100 characters leaves the base name as title. */
  lemma LongFirstLineGivesBaseName(path: string, line: string, rest: string)
    requires '\n' !in line && |Trim(line)| > 100
    ensures Title(path, line + "\n" + rest) == AfterLast(path, '/')
  {
    NewlineFirst(rest);
    SplitOnFreePrefix(line, "\n" + rest, "\n");
    assert line + "\n" + rest == line + ("\n" + rest);
    assert line + "" == line;
  }

  /** `len(content.split('\n'))`. */
  function TotalLines(content: string): (n: nat)
    ensures n == CountChar(content, '\n') + 1
  {
    SplitCount(content, '\n');
    |SplitOn(content, "\n")|
  }

  /** The number of lines that are not blank. */
  function NonEmptyLines(content: string): (n: nat)
    ensures n <= TotalLines(content)
  {
    |TrimmedNonBlank(SplitOn(content, "\n"))|
  }

  /** `_extract_metadata`, in txt_extractor.py's key order. */
  function Metadata(path: string, content: string, stat: FileStat): (r: seq<(string, Value)>)
    ensures Keys(r) == ["title", "file_size", "created_time", "modified_time", "total_lines", "non_empty_lines", "word_count"]
    ensures r[0] == ("title", PStr(Title(path, content)))
    ensures r[1] == ("file_size", PInt(stat.size))
    ensures r[4] == ("total_lines", PInt(TotalLines(content)))
    ensures r[5] == ("non_empty_lines", PInt(NonEmptyLines(content)))
    ensures r[6] == ("word_count", PInt(|Words(content)|))
  {
    var title, lines, nonEmpty, words := Title(path, content), TotalLines(content), NonEmptyLines(content), |Words(content)|;
    [("title", PStr(title)), ("file_size", PInt(stat.size)), ("created_time", PStr(stat.created)),
     ("modified_time", PStr(stat.modified)), ("total_lines", PInt(lines)),
     ("non_empty_lines", PInt(nonEmpty)), ("word_count", PInt(words))]
  }

  /** Reading the file: its text, a decoding failure, or any other failure
      (a missing file, a denied permission) with its message. */
  datatype ReadOutcome = Decoded(text: string) | NotUtf8 | ReadFailed(message: string)

  const Caution := "文本文件可能包含特殊格式，当前仅提取纯文本内容"
  const Wrap := "文本文件处理失败: "

  /** `extract`: every failure becomes `NoValidContentError`; all but a
      decoding failure are wrapped with the extractor's prefix. */
  function Extract(path: string, read: ReadOutcome, stat: Result<FileStat, string>): (r: Result<Doc, ContentError>)
    ensures r.Failure? ==> r.error.NoValidContent?
    ensures read == NotUtf8 ==> r == Failure(NoValidContent("文件编码不是UTF-8，请确保文件使用UTF-8编码"))
    ensures read.ReadFailed? ==> r == Failure(NoValidContent(Wrap + read.message))
    ensures read.Decoded? && IsBlank(read.text) ==> r == Failure(NoValidContent(Wrap + "文件内容为空"))
    ensures read.Decoded? && !IsBlank(read.text) && stat.Failure? ==> r == Failure(NoValidContent(Wrap + stat.error))
    ensures r.Success? <==> read.Decoded? && !IsBlank(read.text) && stat.Success? && ExtractContent(read.text) != []
    ensures r.Success? ==> r.value == Doc("file", Title(path, read.text), Metadata(path, read.text, stat.value),
                                          ExtractContent(read.text), [], Some(Caution))
  {
    match read
    case NotUtf8 => Failure(NoValidContent("文件编码不是UTF-8，请确保文件使用UTF-8编码"))
    case ReadFailed(m) => Failure(NoValidContent(Wrap + m))
    case Decoded(content) =>
      if IsBlank(content) then Failure(NoValidContent(Wrap + "文件内容为空"))
      else if stat.Failure? then Failure(NoValidContent(Wrap + stat.error))
      else
        var metadata := Metadata(path, content, stat.value);
        var entries := ExtractContent(content);
        if entries == [] then Failure(NoValidContent(Wrap + "无法从文本文件中提取有效内容"))
        else
          var title := GetOr(metadata, "title", PStr(AfterLast(path, '/')));
          assert title == PStr(Title(path, content));
          Success(Doc("file", title.s, metadata, entries, [], Some(Caution)))
  }

  /** A text whose every paragraph is an item-less list is refused with the
      "no valid content" message although it is not blank. */
  lemma ItemlessTextRefused(path: string, content: string, stat: FileStat)
    requires !IsBlank(content)
    requires forall i :: 0 <= i < |Paragraphs(content)| ==> ItemlessList(Paragraphs(content)[i])
    ensures Extract(path, Decoded(content), Success(stat)) == Failure(NoValidContent(Wrap + "无法从文本文件中提取有效内容"))
  {
    WalkEmpty(Paragraphs(content), Untitled);
  }
}
