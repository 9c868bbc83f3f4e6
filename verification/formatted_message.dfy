/** The chat message formatter (src/components/chat/FormattedMessage.tsx).
    A message is split into lines; each line is a heading (`# …` up to six
    hashes), an item of a numbered list (`1. …` or `1) …`), a paragraph, or
    blank. Consecutive list items are gathered into one ordered list, and
    within each piece of text `**…**` runs are shown in bold.

    The two line regular expressions and the bold-splitting one are modelled
    by their backtracking semantics, written out; a shape predicate per
    expression says what a match looks like, and lemmas prove each matcher
    sound and complete against it. */
module FormattedMessage {
  import opened Basics

  // ------------------------------------------------------------ bold runs

  datatype Inline = Plain(text: string) | Strong(text: string)

  /** A piece of text that begins and ends with `**` and has room for both. */
  predicate IsBoldRun(p: string) {
    |p| >= 4 && StartsWith(p, "**") && EndsWith(p, "**")
  }

  predicate StartsWith(s: string, p: string) {
    |p| <= |s| && s[..|p|] == p
  }

  predicate EndsWith(s: string, p: string) {
    |p| <= |s| && s[|s| - |p|..] == p
  }

  /** The lazy `.*?\*\*` part of the bold expression, tried from `j`: it
      moves right until `**` stands at the position, and gives up at a line
      terminator or at the end of the text. */
  function FindClose(s: string, j: nat): (r: Option<nat>)
    requires j <= |s|
    ensures r.Some? ==> j <= r.value && r.value + 2 <= |s|
    decreases |s| - j
  {
    if j + 2 <= |s| && s[j..j + 2] == "**" then Some(j)
    else if j < |s| && !IsLineTerminator(s[j]) then FindClose(s, j + 1)
    else None
  }

  /** `FindClose` finds the first `**` at or after `j` that no line
      terminator precedes, and finds none exactly when there is no such
      `**`. */
  lemma {:induction false} FindCloseFirst(s: string, j: nat)
    requires j <= |s|
    ensures FindClose(s, j).Some? ==> OccursAt(s, "**", FindClose(s, j).value) && NoLineTerminator(s[j..FindClose(s, j).value])
    ensures FindClose(s, j).Some? ==> forall k: nat | j <= k < FindClose(s, j).value :: !OccursAt(s, "**", k)
    ensures FindClose(s, j).None? ==> forall k: nat | j <= k <= |s| && NoLineTerminator(s[j..k]) :: !OccursAt(s, "**", k)
    decreases |s| - j
  {
    if j + 2 <= |s| && s[j..j + 2] == "**" {
    } else if j < |s| && !IsLineTerminator(s[j]) {
      FindCloseFirst(s, j + 1);
      assert forall k: nat | j + 1 <= k <= |s| :: s[j..k] == [s[j]] + s[j + 1..k];
    } else {
      assert forall k: nat | j < k <= |s| :: s[j..k][0] == s[j];
    }
  }

  /** The bold expression matches at `k`: `**` stands there and a closing
      `**` follows on the same line. */
  predicate BoldStartsAt(s: string, k: nat) {
    OccursAt(s, "**", k) && FindClose(s, k + 2).Some?
  }

  /** Where a match that starts at `k` ends: just past the closing `**`. */
  function BoldEnd(s: string, k: nat): (e: nat)
    requires BoldStartsAt(s, k)
    ensures k + 4 <= e <= |s| && OccursAt(s, "**", e - 2)
    ensures NoLineTerminator(s[k + 2..e - 2]) && forall j: nat | k + 2 <= j < e - 2 :: !OccursAt(s, "**", j)
  {
    FindCloseFirst(s, k + 2);
    FindClose(s, k + 2).value + 2
  }

  /** The leftmost match of `\*\*.*?\*\*` at or after `i`, as a start and
      an exclusive end. */
  function FindBold(s: string, i: nat): (r: Option<(nat, nat)>)
    requires i <= |s|
    ensures r.Some? ==> i <= r.value.0 <= r.value.1 <= |s| && IsBoldRun(s[r.value.0..r.value.1])
    decreases |s| - i
  {
    if i + 2 > |s| then None
    else if BoldStartsAt(s, i) then
      var e := BoldEnd(s, i);
      assert s[i..e][..2] == s[i..i + 2];
      assert s[i..e][e - i - 2..] == s[e - 2..e];
      Some((i, e))
    else FindBold(s, i + 1)
  }

  /** A match `FindBold` returns starts where the expression matches and
      ends where the lazy part stops. */
  lemma {:induction false} FindBoldMatches(s: string, i: nat)
    requires i <= |s|
    ensures FindBold(s, i).Some? ==> BoldStartsAt(s, FindBold(s, i).value.0) && FindBold(s, i).value.1 == BoldEnd(s, FindBold(s, i).value.0)
    decreases |s| - i
  {
    if i + 2 <= |s| && !BoldStartsAt(s, i) {
      FindBoldMatches(s, i + 1);
    }
  }

  /** `FindBold` returns the leftmost match: none starts before the one it
      returns, and none starts anywhere when it returns nothing. */
  lemma {:induction false} FindBoldLeftmost(s: string, i: nat)
    requires i <= |s|
    ensures FindBold(s, i).Some? ==> forall k: nat | i <= k < FindBold(s, i).value.0 :: !BoldStartsAt(s, k)
    ensures FindBold(s, i).None? ==> forall k: nat | i <= k :: !BoldStartsAt(s, k)
    decreases |s| - i
  {
    if i + 2 > |s| {
      assert forall k: nat | i <= k :: !OccursAt(s, "**", k);
    } else if !BoldStartsAt(s, i) {
      FindBoldLeftmost(s, i + 1);
    }
  }

  /** The leftmost bold run of the whole text. */
  function FirstBold(s: string): (r: Option<(nat, nat)>)
    ensures r.Some? ==> r.value.0 <= r.value.1 <= |s| && IsBoldRun(s[r.value.0..r.value.1])
  {
    FindBold(s, 0)
  }

  /** The first match is a match of the expression, none starts before it,
      and there is none exactly when the expression matches nowhere. */
  lemma FirstBoldLeftmost(s: string)
    ensures FirstBold(s).Some? ==> BoldStartsAt(s, FirstBold(s).value.0) && FirstBold(s).value.1 == BoldEnd(s, FirstBold(s).value.0)
    ensures FirstBold(s).Some? ==> forall k: nat | k < FirstBold(s).value.0 :: !BoldStartsAt(s, k)
    ensures FirstBold(s).None? <==> forall k: nat :: !BoldStartsAt(s, k)
  {
    FindBoldMatches(s, 0);
    FindBoldLeftmost(s, 0);
  }

  /** A closing `**` found in a prefix is found in the whole text. */
  lemma CloseInPrefix(s: string, a: nat, j: nat)
    requires j <= a <= |s| && FindClose(s[..a], j).Some?
    ensures FindClose(s, j).Some?
  {
    var t := s[..a];
    FindCloseFirst(t, j);
    FindCloseFirst(s, j);
    var c := FindClose(t, j).value;
    assert s[c..c + 2] == t[c..c + 2];
    assert s[j..c] == t[j..c];
  }

  /** Text before the leftmost match holds no match of its own. */
  lemma NoBoldBefore(s: string, a: nat)
    requires FirstBold(s).Some? && a == FirstBold(s).value.0
    ensures FirstBold(s[..a]).None?
  {
    FirstBoldLeftmost(s);
    var t := s[..a];
    FirstBoldLeftmost(t);
    if FirstBold(t).Some? {
      var k := FirstBold(t).value.0;
      assert t[k..k + 2] == s[k..k + 2];
      CloseInPrefix(s, a, k + 2);
      assert BoldStartsAt(s, k);
      assert false;
    }
  }

  /** `text.split(/(\*\*.*?\*\*)/)`: the text between matches and the
      matches themselves, alternately. */
  function SplitBold(s: string): (parts: seq<string>)
    ensures |parts| >= 1
    decreases |s|
  {
    var m := FirstBold(s);
    if m.None? then [s]
    else
      var (a, b) := m.value;
      [s[..a], s[a..b]] + SplitBold(s[b..])
  }

  /** The split loses nothing: the parts concatenate back to the text, there
      is one more plain part than there are matches, every match is a bold
      run, and no plain part holds a match of the expression. */
  lemma SplitBoldParts(s: string)
    ensures |SplitBold(s)| % 2 == 1
    ensures Concat(SplitBold(s)) == s
    ensures forall k | 0 <= k < |SplitBold(s)| && k % 2 == 1 :: IsBoldRun(SplitBold(s)[k])
    ensures forall k | 0 <= k < |SplitBold(s)| && k % 2 == 0 :: FirstBold(SplitBold(s)[k]).None?
  {
    SplitBoldShape(s);
    SplitBoldPlain(s);
  }

  lemma {:induction false} SplitBoldShape(s: string)
    ensures |SplitBold(s)| % 2 == 1
    ensures Concat(SplitBold(s)) == s
    ensures forall k | 0 <= k < |SplitBold(s)| && k % 2 == 1 :: IsBoldRun(SplitBold(s)[k])
    decreases |s|
  {
    var m := FirstBold(s);
    if m.None? {
      assert [s][1..] == [];
    } else {
      var (a, b) := m.value;
      var rest := SplitBold(s[b..]);
      SplitBoldShape(s[b..]);
      var parts := [s[..a], s[a..b]] + rest;
      assert SplitBold(s) == parts;
      ConcatCons(s[..a], s[a..b], rest);
      assert s[..a] + s[a..b] + s[b..] == s;
      assert forall k | 2 <= k < |parts| :: parts[k] == rest[k - 2];
      assert forall k: int :: k % 2 == 1 <==> (k - 2) % 2 == 1;
    }
  }

  lemma {:induction false} SplitBoldPlain(s: string)
    ensures forall k | 0 <= k < |SplitBold(s)| && k % 2 == 0 :: FirstBold(SplitBold(s)[k]).None?
    decreases |s|
  {
    var m := FirstBold(s);
    if m.Some? {
      var (a, b) := m.value;
      var rest := SplitBold(s[b..]);
      SplitBoldPlain(s[b..]);
      var parts := [s[..a], s[a..b]] + rest;
      assert SplitBold(s) == parts;
      NoBoldBefore(s, a);
      assert forall k | 2 <= k < |parts| :: parts[k] == rest[k - 2];
      assert forall k: int :: k % 2 == 0 <==> (k - 2) % 2 == 0;
    }
  }

  /** `part.slice(2, -2)`: empty when the part is too short to have both ends
      cut off. */
  function InnerText(part: string): (t: string)
    ensures |part| >= 4 ==> part == part[..2] + t + part[|part| - 2..]
    ensures |part| < 4 ==> t == ""
  {
    if |part| >= 4 then part[2..|part| - 2] else ""
  }

  function ShowPart(part: string): (r: Inline)
    ensures r.Strong? <==> StartsWith(part, "**") && EndsWith(part, "**")
    ensures r.Strong? ==> r.text == InnerText(part)
    ensures r.Plain? ==> r.text == part
  {
    if StartsWith(part, "**") && EndsWith(part, "**") then Strong(InnerText(part)) else Plain(part)
  }

  /** `formatBoldText`: every part of the split, shown bold when it begins
      and ends with `**`. Every match is shown bold with its markers cut
      off, and no piece left plain holds a match. */
  function FormatBoldText(s: string): (r: seq<Inline>)
    ensures |r| == |SplitBold(s)|
    ensures forall k | 0 <= k < |r| :: r[k] == ShowPart(SplitBold(s)[k])
    ensures forall k | 0 <= k < |r| && k % 2 == 1 :: r[k].Strong? && SplitBold(s)[k] == "**" + r[k].text + "**"
    ensures forall k | 0 <= k < |r| && r[k].Plain? :: FirstBold(r[k].text).None?
  {
    var parts := SplitBold(s);
    SplitBoldParts(s);
    seq(|parts|, k requires 0 <= k < |parts| => ShowPart(parts[k]))
  }

  // ------------------------------------------------------- line matchers

  /** A match of `^(#{1,6})\s+(.+)$`: `level` hashes, at least one
      whitespace character, then the non-empty `text` free of line
      terminators. */
  predicate HeadingShape(line: string, level: nat, text: string) {
    && 1 <= level <= 6
    && |text| >= 1
    && level + |text| < |line|
    && (forall i | 0 <= i < level :: line[i] == '#')
    && AllSpace(line[level..|line| - |text|])
    && line[|line| - |text|..] == text
    && NoLineTerminator(text)
  }

  /** The heading expression with its backtracking worked out: all leading
      hashes (at most six), the longest run of whitespace that still leaves
      one character for the text. */
  function MatchHeading(line: string): (r: Option<(nat, string)>)
    ensures r.Some? ==> HeadingShape(line, r.value.0, r.value.1)
  {
    var h := CountLeading(line, '#');
    if h < 1 || h > 6 then None
    else
      var rest := line[h..];
      var w := LeadingSpaces(rest);
      if w == 0 then None
      else if w < |rest| then
        if NoLineTerminator(rest[w..]) then
          HeadingShapeOf(line, h, rest, w);
          Some((h, rest[w..]))
        else None
      else if w >= 2 && !IsLineTerminator(rest[w - 1]) then
        HeadingShapeOf(line, h, rest, w - 1);
        Some((h, rest[w - 1..]))
      else None
  }

  /** Hashes, then `sp` whitespace characters, then a rest free of line
      terminators make a heading whose text is that rest. */
  lemma HeadingShapeOf(line: string, h: nat, rest: string, sp: nat)
    requires 1 <= h <= 6 && 1 <= sp && h + sp < |line|
    requires forall i | 0 <= i < h :: line[i] == '#'
    requires rest == line[h..]
    requires forall i | 0 <= i < sp :: IsSpace(rest[i])
    requires NoLineTerminator(rest[sp..])
    ensures HeadingShape(line, h, rest[sp..])
  {
    var text := rest[sp..];
    assert text == line[h + sp..];
    assert |line| - |text| == h + sp;
    var spaces := line[h..h + sp];
    forall i | 0 <= i < sp
      ensures IsSpace(spaces[i])
    {
      assert spaces[i] == rest[i];
    }
  }

  /** Every way the heading expression can match is found: the level is the
      same, and the text found is the shortest one, a suffix of any other. */
  lemma MatchHeadingComplete(line: string, level: nat, text: string)
    requires HeadingShape(line, level, text)
    ensures MatchHeading(line).Some?
    ensures MatchHeading(line).value.0 == level
    ensures |MatchHeading(line).value.1| <= |text|
  {
    var ws := |line| - |text| - level;
    var spaces := line[level..|line| - |text|];
    assert spaces[0] == line[level];
    CountLeadingExact(line, '#', level);
    var rest := line[level..];
    assert forall i | 0 <= i < ws :: rest[i] == spaces[i];
    LeadingSpacesAtLeast(rest, ws);
    var w := LeadingSpaces(rest);
    DropDrop(line, level, ws);
    assert rest[ws..] == text;
    DropDrop(rest, ws, w - ws);
    if w < |rest| {
      SuffixKeepsNoLineTerminator(text, w - ws);
      assert rest[w..] == text[w - ws..];
      HeadingWithText(line, level, rest, w);
    } else {
      assert rest[w - 1] == text[|text| - 1];
      HeadingAllSpaces(line, level, rest);
    }
  }

  /** The matcher's result when whitespace is followed by text. */
  lemma HeadingWithText(line: string, level: nat, rest: string, w: nat)
    requires 1 <= level <= 6 && CountLeading(line, '#') == level
    requires rest == line[level..] && w == LeadingSpaces(rest)
    requires 0 < w < |rest| && NoLineTerminator(rest[w..])
    ensures MatchHeading(line) == Some((level, rest[w..]))
  {
  }

  /** The matcher's result when the rest of the line is all whitespace:
      the last whitespace character becomes the text. */
  lemma HeadingAllSpaces(line: string, level: nat, rest: string)
    requires 1 <= level <= 6 && CountLeading(line, '#') == level
    requires rest == line[level..] && LeadingSpaces(rest) == |rest| >= 2
    requires !IsLineTerminator(rest[|rest| - 1])
    ensures MatchHeading(line) == Some((level, rest[|rest| - 1..]))
  {
  }

  /** A string that starts with exactly `n` copies of `c`. */
  lemma CountLeadingExact(s: string, c: char, n: nat)
    requires n < |s| && s[n] != c
    requires forall i | 0 <= i < n :: s[i] == c
    ensures CountLeading(s, c) == n
  {
  }

  lemma LeadingSpacesAtLeast(s: string, k: nat)
    requires k <= |s|
    requires forall i | 0 <= i < k :: IsSpace(s[i])
    ensures LeadingSpaces(s) >= k
  {
  }

  lemma SuffixKeepsNoLineTerminator(s: string, k: nat)
    requires k <= |s| && NoLineTerminator(s)
    ensures NoLineTerminator(s[k..])
  {
    assert forall i | 0 <= i < |s| - k :: s[k..][i] == s[k + i];
  }

  /** Seven or more leading hashes never make a heading. */
  lemma SevenHashesIsNoHeading(line: string)
    requires |line| >= 7 && forall i | 0 <= i < 7 :: line[i] == '#'
    ensures MatchHeading(line).None?
  {
  }

  /** A match of `^(\d+)[.)] *(.+)$`: `digits` decimal digits, a dot or a
      closing parenthesis, spaces, then the non-empty `text`. */
  predicate ItemShape(line: string, digits: nat, text: string) {
    && digits >= 1
    && |text| >= 1
    && digits + 1 + |text| <= |line|
    && AllDigits(line[..digits])
    && (line[digits] == '.' || line[digits] == ')')
    && (forall i | digits + 1 <= i < |line| - |text| :: line[i] == ' ')
    && line[|line| - |text|..] == text
    && NoLineTerminator(text)
  }

  /** The list-item expression with its backtracking worked out: all the
      leading digits, the marker, the longest run of spaces that still
      leaves one character for the text. */
  function MatchListItem(line: string): (r: Option<(nat, string)>)
    ensures r.Some? ==> ItemShape(line, r.value.0, r.value.1)
  {
    var d := CountDigits(line);
    if d == 0 || d >= |line| || !(line[d] == '.' || line[d] == ')') then None
    else
      var rest := line[d + 1..];
      var w := CountLeading(rest, ' ');
      if w < |rest| then
        if NoLineTerminator(rest[w..]) then
          ItemShapeOf(line, d, rest, w);
          Some((d, rest[w..]))
        else None
      else if w >= 1 then
        assert rest[w - 1..] == [' '];
        ItemShapeOf(line, d, rest, w - 1);
        Some((d, rest[w - 1..]))
      else None
  }

  /** Digits, a marker, `sp` spaces, then a rest free of line terminators
      make a list item whose text is that rest. */
  lemma ItemShapeOf(line: string, d: nat, rest: string, sp: nat)
    requires 1 <= d < |line| && AllDigits(line[..d]) && (line[d] == '.' || line[d] == ')')
    requires rest == line[d + 1..] && sp < |rest|
    requires forall i | 0 <= i < sp :: rest[i] == ' '
    requires NoLineTerminator(rest[sp..])
    ensures ItemShape(line, d, rest[sp..])
  {
    var text := rest[sp..];
    assert text == line[d + 1 + sp..];
    assert |line| - |text| == d + 1 + sp;
    forall i | d + 1 <= i < d + 1 + sp
      ensures line[i] == ' '
    {
      assert line[i] == rest[i - d - 1];
    }
  }

  lemma MatchListItemComplete(line: string, digits: nat, text: string)
    requires ItemShape(line, digits, text)
    ensures MatchListItem(line).Some?
    ensures MatchListItem(line).value.0 == digits
    ensures |MatchListItem(line).value.1| <= |text|
  {
    CountDigitsExact(line, digits);
    var rest := line[digits + 1..];
    var sp := |line| - |text| - digits - 1;
    assert forall i | 0 <= i < sp :: rest[i] == line[digits + 1 + i];
    CountLeadingAtLeast(rest, ' ', sp);
    var w := CountLeading(rest, ' ');
    assert rest[sp..] == text;
    if w < |rest| {
      SuffixKeepsNoLineTerminator(text, w - sp);
      assert rest[w..] == text[w - sp..];
      ItemWithText(line, digits, rest, w);
    } else {
      ItemAllSpaces(line, digits, rest);
    }
  }

  /** The matcher's result when spaces are followed by text. */
  lemma ItemWithText(line: string, d: nat, rest: string, w: nat)
    requires 1 <= d < |line| && CountDigits(line) == d && (line[d] == '.' || line[d] == ')')
    requires rest == line[d + 1..] && w == CountLeading(rest, ' ')
    requires w < |rest| && NoLineTerminator(rest[w..])
    ensures MatchListItem(line) == Some((d, rest[w..]))
  {
  }

  /** The matcher's result when only spaces follow the marker: the last
      space becomes the text. */
  lemma ItemAllSpaces(line: string, d: nat, rest: string)
    requires 1 <= d < |line| && CountDigits(line) == d && (line[d] == '.' || line[d] == ')')
    requires rest == line[d + 1..] && CountLeading(rest, ' ') == |rest| >= 1
    ensures MatchListItem(line) == Some((d, rest[|rest| - 1..]))
  {
    var w := CountLeading(rest, ' ');
    assert w == |rest| && w >= 1;
  }

  lemma CountLeadingAtLeast(s: string, c: char, k: nat)
    requires k <= |s|
    requires forall i | 0 <= i < k :: s[i] == c
    ensures CountLeading(s, c) >= k
  {
  }

  // ---------------------------------------------------------- line kinds

  datatype LineKind =
    | HeadingLine(level: nat, text: string)
    | ItemLine(value: nat, text: string)
    | PlainLine(line: string)
    | BlankLine

  /** What one line is, decided in the order of the source: heading, list
      item, then paragraph if `trim` leaves anything. */
  function Classify(line: string): (k: LineKind)
    ensures k.HeadingLine? <==> MatchHeading(line).Some?
    ensures k.ItemLine? <==> MatchHeading(line).None? && MatchListItem(line).Some?
    ensures k.BlankLine? <==> MatchHeading(line).None? && MatchListItem(line).None? && IsBlank(line)
    ensures k.ItemLine? ==> k.value == DigitsValue(line[..MatchListItem(line).value.0])
    ensures k.PlainLine? ==> k.line == line
  {
    match MatchHeading(line)
    case Some((level, text)) => HeadingLine(level, text)
    case None =>
      match MatchListItem(line)
      case Some((d, text)) => ItemLine(DigitsValue(line[..d]), text)
      case None => if IsBlank(line) then BlankLine else PlainLine(line)
  }

  // -------------------------------------------------------------- blocks

  datatype ListItem = ListItem(value: nat, text: string)

  datatype Block =
    | Heading(level: nat, text: string)
    | OrderedList(start: nat, items: seq<ListItem>)
    | Paragraph(line: string)

  /** A list block as the source builds it: not empty, numbered from the
      value of its first item. */
  predicate WellFormedList(b: Block) {
    b.OrderedList? ==> |b.items| > 0 && b.start == b.items[0].value
  }

  /** The number of list-item lines `ks` starts with. */
  function ItemRun(ks: seq<LineKind>): (n: nat)
    ensures n <= |ks|
    ensures forall i | 0 <= i < n :: ks[i].ItemLine?
    ensures n < |ks| ==> !ks[n].ItemLine?
  {
    if ks == [] || !ks[0].ItemLine? then 0 else 1 + ItemRun(ks[1..])
  }

  function ItemsOf(ks: seq<LineKind>): (items: seq<ListItem>)
    requires forall i | 0 <= i < |ks| :: ks[i].ItemLine?
    ensures |items| == |ks|
    ensures forall i | 0 <= i < |ks| :: items[i] == ItemOfLine(ks[i])
  {
    if ks == [] then [] else [ItemOfLine(ks[0])] + ItemsOf(ks[1..])
  }

  /** The block a line other than a list item produces on its own. */
  function LoneBlock(k: LineKind): seq<Block>
    requires !k.ItemLine?
  {
    match k
    case HeadingLine(level, text) => [Heading(level, text)]
    case PlainLine(line) => [Paragraph(line)]
    case BlankLine => []
  }

  /** The blocks of a message, defined by its runs: each maximal run of list
      items is one ordered list, every heading and paragraph line is one
      block, blank lines produce nothing. */
  function Group(ks: seq<LineKind>): (r: seq<Block>)
    ensures forall j | 0 <= j < |r| :: WellFormedList(r[j])
    decreases |ks|
  {
    if ks == [] then []
    else if ks[0].ItemLine? then
      var n := ItemRun(ks);
      [OrderedList(ks[0].value, ItemsOf(ks[..n]))] + Group(ks[n..])
    else LoneBlock(ks[0]) + Group(ks[1..])
  }

  /** What is still to come when a list is open: the open list swallows the
      items `rest` starts with. */
  function Pending(open: seq<ListItem>, start: nat, rest: seq<LineKind>): seq<Block> {
    if open == [] then Group(rest)
    else
      var n := ItemRun(rest);
      [OrderedList(start, open + ItemsOf(rest[..n]))] + Group(rest[n..])
  }

  function Close(open: seq<ListItem>, start: nat): seq<Block> {
    if open == [] then [] else [OrderedList(start, open)]
  }

  lemma PendingAtNonItem(open: seq<ListItem>, start: nat, rest: seq<LineKind>)
    requires rest != [] && !rest[0].ItemLine?
    ensures Pending(open, start, rest) == Close(open, start) + LoneBlock(rest[0]) + Group(rest[1..])
  {
    GroupAtNonItem(rest);
    if open != [] {
      PendingWithoutItems(open, start, rest);
    }
  }

  lemma GroupAtNonItem(rest: seq<LineKind>)
    requires rest != [] && !rest[0].ItemLine?
    ensures Group(rest) == LoneBlock(rest[0]) + Group(rest[1..])
  {
  }

  lemma PendingWithoutItems(open: seq<ListItem>, start: nat, rest: seq<LineKind>)
    requires open != [] && rest != [] && !rest[0].ItemLine?
    ensures Pending(open, start, rest) == [OrderedList(start, open)] + Group(rest)
  {
    assert ItemRun(rest) == 0;
    assert rest[..0] == [] && rest[0..] == rest;
    assert open + ItemsOf([]) == open;
  }

  /** The list item a list-item line stands for. */
  function ItemOfLine(k: LineKind): ListItem
    requires k.ItemLine?
  {
    ListItem(k.value, k.text)
  }

  /** Peeling the first line off a run of items. */
  lemma ItemRunCons(rest: seq<LineKind>)
    requires rest != [] && rest[0].ItemLine?
    ensures ItemRun(rest) == 1 + ItemRun(rest[1..])
    ensures ItemsOf(rest[..ItemRun(rest)]) == [ItemOfLine(rest[0])] + ItemsOf(rest[1..][..ItemRun(rest[1..])])
    ensures rest[ItemRun(rest)..] == rest[1..][ItemRun(rest[1..])..]
  {
    var m := ItemRun(rest[1..]);
    var run := rest[..1 + m];
    assert run[0] == rest[0];
    assert run[1..] == rest[1..][..m];
  }

  lemma PendingAtItem(open: seq<ListItem>, start: nat, rest: seq<LineKind>)
    requires open != [] && rest != [] && rest[0].ItemLine?
    ensures Pending(open, start, rest) == Pending(open + [ItemOfLine(rest[0])], start, rest[1..])
  {
    ItemRunCons(rest);
    var n := ItemRun(rest[1..]);
    assert open + ([ItemOfLine(rest[0])] + ItemsOf(rest[1..][..n])) == (open + [ItemOfLine(rest[0])]) + ItemsOf(rest[1..][..n]);
  }

  lemma GroupAtItem(rest: seq<LineKind>)
    requires rest != [] && rest[0].ItemLine?
    ensures Group(rest) == Pending([ItemOfLine(rest[0])], rest[0].value, rest[1..])
  {
    ItemRunCons(rest);
  }

  /** One step of the line loop at a line that is not a list item: the
      open list, if any, is emitted, then the line's own block. */
  lemma ClosesList(before: seq<Block>, open: seq<ListItem>, start: nat, rest: seq<LineKind>,
                   g: seq<Block>, after: seq<Block>)
    requires rest != [] && !rest[0].ItemLine?
    requires before + Pending(open, start, rest) == g
    requires after == before + Close(open, start) + LoneBlock(rest[0])
    ensures after + Group(rest[1..]) == g
  {
    PendingAtNonItem(open, start, rest);
    AppendAssoc4(before, Close(open, start), LoneBlock(rest[0]), Group(rest[1..]));
  }

  /** Splits a string on `'\n'`, as `text.split('\n')`. */
  function SplitLines(s: string): (lines: seq<string>)
    ensures |lines| >= 1
    ensures forall i | 0 <= i < |lines| :: '\n' !in lines[i]
    ensures JoinLines(lines) == s
    decreases |s|
  {
    if s == [] then [""]
    else
      var rest := SplitLines(s[1..]);
      if s[0] == '\n' then
        assert ([""] + rest)[1..] == rest;
        [""] + rest
      else
        var lines := [[s[0]] + rest[0]] + rest[1..];
        assert lines[1..] == rest[1..];
        lines
  }

  function JoinLines(lines: seq<string>): string
    requires |lines| >= 1
  {
    if |lines| == 1 then lines[0] else lines[0] + "\n" + JoinLines(lines[1..])
  }

  /** The kind of every line, in order. */
  function Kinds(lines: seq<string>): (ks: seq<LineKind>)
    ensures |ks| == |lines|
  {
    if lines == [] then [] else [Classify(lines[0])] + Kinds(lines[1..])
  }

  /** `formatText`: the line loop of the source, keeping the blocks emitted
      so far and the list being collected. It produces exactly the blocks
      the run-based definition describes. */
  method FormatText(text: string) returns (blocks: seq<Block>)
    ensures blocks == Group(Kinds(SplitLines(text)))
  {
    var lines := SplitLines(text);
    blocks := FormatLines(lines);
  }

  method FormatLines(lines: seq<string>) returns (blocks: seq<Block>)
    ensures blocks == Group(Kinds(lines))
  {
    ghost var g := Group(Kinds(lines));
    blocks := [];
    var currentList: seq<ListItem> := [];
    var inList := false;
    var listStart: nat := 1;
    var i := 0;
    assert lines[0..] == lines;
    while i < |lines|
      invariant 0 <= i <= |lines|
      invariant inList <==> currentList != []
      invariant blocks + Pending(currentList, listStart, Kinds(lines[i..])) == g
    {
      KindsStep(lines, i);
      blocks, currentList, inList, listStart :=
        ProcessLine(lines[i], blocks, currentList, inList, listStart, Kinds(lines[i..]), g);
      i := i + 1;
    }
    assert lines[i..] == [];
    PendingAtEnd(currentList, listStart, Kinds(lines[i..]));
    if |currentList| > 0 {
      blocks := blocks + [OrderedList(listStart, currentList)];
    }
  }

  /** The kinds of the lines from `i` on start with the kind of line `i`. */
  lemma KindsStep(lines: seq<string>, i: nat)
    requires i < |lines|
    ensures Kinds(lines[i..]) != []
    ensures Kinds(lines[i..])[0] == Classify(lines[i])
    ensures Kinds(lines[i..])[1..] == Kinds(lines[i + 1..])
  {
    assert lines[i..][0] == lines[i];
    assert lines[i..][1..] == lines[i + 1..];
  }

  /** The body of the line loop for one line. Whatever the line, the blocks
      emitted so far followed by what the rest of the lines will produce
      stay the same. */
  method ProcessLine(line: string, blocks: seq<Block>, currentList: seq<ListItem>, inList: bool,
                     listStart: nat, ghost rest: seq<LineKind>, ghost g: seq<Block>)
    returns (blocks': seq<Block>, currentList': seq<ListItem>, inList': bool, listStart': nat)
    requires inList <==> currentList != []
    requires rest != [] && rest[0] == Classify(line)
    requires blocks + Pending(currentList, listStart, rest) == g
    ensures inList' <==> currentList' != []
    ensures blocks' + Pending(currentList', listStart', rest[1..]) == g
  {
    match Classify(line) {
      case ItemLine(value, itemText) =>
        blocks' := blocks;
        currentList', inList', listStart' := AddItem(currentList, inList, listStart, value, itemText, rest);
      case _ =>
        blocks' := EmitOutsideList(line, blocks, currentList, inList, listStart, rest, g);
        currentList', inList', listStart' := [], false, listStart;
    }
  }

  /** A numbered line opens a list at its own number or extends the open
      one; the emitted blocks do not change. */
  method AddItem(currentList: seq<ListItem>, inList: bool, listStart: nat, value: nat, itemText: string,
                 ghost rest: seq<LineKind>)
    returns (currentList': seq<ListItem>, inList': bool, listStart': nat)
    requires inList <==> currentList != []
    requires rest != [] && rest[0] == ItemLine(value, itemText)
    ensures inList' && currentList' != []
    ensures Pending(currentList', listStart', rest[1..]) == Pending(currentList, listStart, rest)
  {
    inList', listStart' := inList, listStart;
    if !inList' {
      inList' := true;
      listStart' := value;
    }
    currentList' := currentList + [ListItem(value, itemText)];
    if currentList == [] {
      GroupAtItem(rest);
      assert currentList' == [ItemOfLine(rest[0])];
    } else {
      PendingAtItem(currentList, listStart, rest);
      assert currentList' == currentList + [ItemOfLine(rest[0])];
    }
  }

  /** A heading, a plain line or a blank line closes the open list, then
      emits its own block (a blank line emits none). */
  method EmitOutsideList(line: string, blocks: seq<Block>, currentList: seq<ListItem>, inList: bool,
                         listStart: nat, ghost rest: seq<LineKind>, ghost g: seq<Block>)
    returns (blocks': seq<Block>)
    requires inList <==> currentList != []
    requires rest != [] && rest[0] == Classify(line) && !rest[0].ItemLine?
    requires blocks + Pending(currentList, listStart, rest) == g
    ensures blocks' + Pending([], listStart, rest[1..]) == g
  {
    var closed := CloseOpenList(blocks, currentList, inList, listStart);
    blocks' := EmitLineBlock(line, closed);
    ClosesList(blocks, currentList, listStart, rest, g, blocks');
  }

  /** Pushes the open list, if there is one, as an ordered list block. */
  method CloseOpenList(blocks: seq<Block>, currentList: seq<ListItem>, inList: bool, listStart: nat)
    returns (blocks': seq<Block>)
    requires inList <==> currentList != []
    ensures blocks' == blocks + Close(currentList, listStart)
  {
    blocks' := blocks;
    if inList && |currentList| > 0 {
      blocks' := blocks' + [OrderedList(listStart, currentList)];
    }
  }

  /** Pushes the block of a heading or a non-blank plain line. */
  method EmitLineBlock(line: string, blocks: seq<Block>) returns (blocks': seq<Block>)
    requires !Classify(line).ItemLine?
    ensures blocks' == blocks + LoneBlock(Classify(line))
  {
    var kind := Classify(line);
    match kind {
      case HeadingLine(level, headingText) =>
        blocks' := blocks + [Heading(level, headingText)];
      case _ =>
        blocks' := blocks;
        if !IsBlank(line) {
          blocks' := blocks' + [Paragraph(line)];
        }
    }
  }

  lemma PendingAtEnd(open: seq<ListItem>, start: nat, rest: seq<LineKind>)
    requires rest == []
    ensures Pending(open, start, rest) == Close(open, start)
  {
    assert rest[..0] == [] && rest[0..] == [];
    assert open + [] == open;
  }

  // ---------------------------------------------------------- properties

  /** The lines a block stands for, in order. */
  function LinesOf(b: Block): seq<LineKind> {
    match b
    case Heading(level, text) => [HeadingLine(level, text)]
    case Paragraph(line) => [PlainLine(line)]
    case OrderedList(_, items) => seq(|items|, i requires 0 <= i < |items| => ItemLine(items[i].value, items[i].text))
  }

  function Flatten(blocks: seq<Block>): seq<LineKind> {
    if blocks == [] then [] else LinesOf(blocks[0]) + Flatten(blocks[1..])
  }

  function NonBlank(ks: seq<LineKind>): seq<LineKind> {
    if ks == [] then [] else (if ks[0].BlankLine? then [] else [ks[0]]) + NonBlank(ks[1..])
  }

  lemma {:induction false} NonBlankAppend(a: seq<LineKind>, b: seq<LineKind>)
    ensures NonBlank(a + b) == NonBlank(a) + NonBlank(b)
    decreases |a|
  {
    if a == [] {
      assert a + b == b;
    } else {
      assert (a + b)[1..] == a[1..] + b;
      NonBlankAppend(a[1..], b);
    }
  }

  lemma {:induction false} FlattenAppend(a: seq<Block>, b: seq<Block>)
    ensures Flatten(a + b) == Flatten(a) + Flatten(b)
    decreases |a|
  {
    if a == [] {
      assert a + b == b;
    } else {
      assert (a + b)[1..] == a[1..] + b;
      FlattenAppend(a[1..], b);
    }
  }

  lemma {:induction false} NonBlankOfItems(ks: seq<LineKind>)
    requires forall i | 0 <= i < |ks| :: ks[i].ItemLine?
    ensures NonBlank(ks) == ks
    decreases |ks|
  {
    if ks != [] {
      NonBlankOfItems(ks[1..]);
      assert ks == [ks[0]] + ks[1..];
    }
  }

  /** No line is lost, duplicated or reordered: reading the blocks back
      line by line gives every line that is not blank, in input order, and
      each list-item line lands in exactly one list. */
  lemma {:induction false} GroupKeepsLines(ks: seq<LineKind>)
    ensures Flatten(Group(ks)) == NonBlank(ks)
    decreases |ks|
  {
    if ks != [] {
      if ks[0].ItemLine? {
        var n := ItemRun(ks);
        GroupKeepsLines(ks[n..]);
        RunKeepsLines(ks);
      } else {
        GroupKeepsLines(ks[1..]);
        LoneKeepsLines(ks);
      }
    }
  }

  /** The step of `GroupKeepsLines` at a run of items: the list block
      holds exactly the run's lines. */
  lemma RunKeepsLines(ks: seq<LineKind>)
    requires ks != [] && ks[0].ItemLine?
    requires Flatten(Group(ks[ItemRun(ks)..])) == NonBlank(ks[ItemRun(ks)..])
    ensures Flatten(Group(ks)) == NonBlank(ks)
  {
    var n := ItemRun(ks);
    var run, after := ks[..n], ks[n..];
    var head := OrderedList(ks[0].value, ItemsOf(run));
    var tail := Group(after);
    assert Group(ks) == [head] + tail;
    FlattenAppend([head], tail);
    assert forall i | 0 <= i < n :: run[i] == ks[i];
    RunBlockLines(run, ks[0].value);
    assert Flatten(Group(ks)) == NonBlank(run) + NonBlank(after);
    TakeDrop(ks, n);
    NonBlankAppend(run, after);
  }


  lemma RunBlockLines(run: seq<LineKind>, start: nat)
    requires forall i | 0 <= i < |run| :: run[i].ItemLine?
    ensures Flatten([OrderedList(start, ItemsOf(run))]) == NonBlank(run)
  {
    var head := OrderedList(start, ItemsOf(run));
    assert LinesOf(head) == run;
    assert [head][1..] == [];
    NonBlankOfItems(run);
  }

  /** The step of `GroupKeepsLines` at a line that is not an item. */
  lemma LoneKeepsLines(ks: seq<LineKind>)
    requires ks != [] && !ks[0].ItemLine?
    requires Flatten(Group(ks[1..])) == NonBlank(ks[1..])
    ensures Flatten(Group(ks)) == NonBlank(ks)
  {
    var lone := LoneBlock(ks[0]);
    GroupAtNonItem(ks);
    FlattenAppend(lone, Group(ks[1..]));
    assert ks == [ks[0]] + ks[1..];
    NonBlankAppend([ks[0]], ks[1..]);
    LoneBlockLines(ks[0]);
  }

  lemma LoneBlockLines(k: LineKind)
    requires !k.ItemLine?
    ensures Flatten(LoneBlock(k)) == NonBlank([k])
  {
    var lone := LoneBlock(k);
    assert [k][1..] == [];
    if lone != [] {
      assert lone[1..] == [];
    }
  }

  /** A line that is not a list item closes any open list: the blocks
      before it and after it are formed independently. A blank line
      contributes no block of its own. */
  lemma {:induction false} NonItemSeparates(a: seq<LineKind>, k: LineKind, b: seq<LineKind>)
    requires !k.ItemLine?
    ensures Group(a + [k] + b) == Group(a) + LoneBlock(k) + Group(b)
    decreases |a|, 1
  {
    if a == [] {
      var s := a + [k] + b;
      assert s == [k] + b && s[1..] == b;
    } else if a[0].ItemLine? {
      SeparatesAfterRun(a, k, b);
    } else {
      SeparatesAfterLone(a, k, b);
    }
  }

  lemma {:induction false} SeparatesAfterRun(a: seq<LineKind>, k: LineKind, b: seq<LineKind>)
    requires !k.ItemLine? && a != [] && a[0].ItemLine?
    ensures Group(a + [k] + b) == Group(a) + LoneBlock(k) + Group(b)
    decreases |a|, 0
  {
    var c := [k] + b;
    var s := a + [k] + b;
    AppendAssoc(a, [k], b);
    var n := ItemRun(a);
    ItemRunPrefix(a, c);
    AppendSplit(a, c, n);
    AppendAssoc(a[n..], [k], b);
    var head := [OrderedList(a[0].value, ItemsOf(a[..n]))];
    assert Group(a) == head + Group(a[n..]);
    assert Group(s) == head + Group(a[n..] + [k] + b);
    NonItemSeparates(a[n..], k, b);
    AppendAssoc4(head, Group(a[n..]), LoneBlock(k), Group(b));
  }

  lemma {:induction false} SeparatesAfterLone(a: seq<LineKind>, k: LineKind, b: seq<LineKind>)
    requires !k.ItemLine? && a != [] && !a[0].ItemLine?
    ensures Group(a + [k] + b) == Group(a) + LoneBlock(k) + Group(b)
    decreases |a|, 0
  {
    var s := a + [k] + b;
    assert s[1..] == a[1..] + [k] + b;
    assert Group(s) == LoneBlock(a[0]) + Group(a[1..] + [k] + b);
    NonItemSeparates(a[1..], k, b);
  }

  /** The item run of `a + b` stops inside `a` when `a` holds a line that
      is not an item, and extends across it otherwise. */
  lemma {:induction false} ItemRunPrefix(a: seq<LineKind>, b: seq<LineKind>)
    requires b != [] && !b[0].ItemLine?
    ensures ItemRun(a + b) == ItemRun(a)
    decreases |a|
  {
    if a == [] {
      assert a + b == b;
    } else if a[0].ItemLine? {
      assert (a + b)[1..] == a[1..] + b;
      ItemRunPrefix(a[1..], b);
    }
  }

  /** Consecutive list-item lines form one ordered list, numbered from the
      first item's value. */
  lemma ConsecutiveItemsShareList(items: seq<LineKind>, rest: seq<LineKind>)
    requires |items| > 0 && forall i | 0 <= i < |items| :: items[i].ItemLine?
    requires rest == [] || !rest[0].ItemLine?
    ensures Group(items + rest) == [OrderedList(items[0].value, ItemsOf(items))] + Group(rest)
  {
    var s := items + rest;
    if rest == [] {
      assert s == items;
      ItemRunAll(items);
    } else {
      ItemRunPrefix(items, rest);
      ItemRunAll(items);
    }
    assert s[..|items|] == items;
    assert s[|items|..] == rest;
  }

  lemma {:induction false} ItemRunAll(items: seq<LineKind>)
    requires forall i | 0 <= i < |items| :: items[i].ItemLine?
    ensures ItemRun(items) == |items|
    decreases |items|
  {
    if items != [] {
      ItemRunAll(items[1..]);
    }
  }

  /** The message's blocks, in terms of the formatter: every line that is
      not blank appears once and in order, and every list is well formed. */
  method FormatTextKeepsLines(text: string) returns (blocks: seq<Block>)
    ensures Flatten(blocks) == NonBlank(Kinds(SplitLines(text)))
    ensures forall j | 0 <= j < |blocks| :: WellFormedList(blocks[j])
  {
    blocks := FormatText(text);
    GroupKeepsLines(Kinds(SplitLines(text)));
  }
}
