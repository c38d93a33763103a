/** The scheme switcher line by line, said outright of the text of the lines
    (files/apt-srctools/apt-src-scheme.ts): what a row is changed into, which lines are markers, how
    blocks are found, which ids are given out, and where every line ends up. */
module AptLines {
  import opened Wrappers
  import opened Text
  import opened AptModel
  import opened AptScheme
  import opened AptFlip
  import AptFormat
  import opened AptRewrite
  import opened AptProcess
  import opened AptVerify
  import opened AptAdopt
  import opened AptBlocks

  // ------------------------------------------------------------------ words

  /** What separates words: white space, white space and commas, or commas. */
  predicate Separates(c: char, k: Sep) {
    (k != Space && c == ',') || (k != Comma && White(c))
  }

  predicate White(c: char) {
    || c in {' ', '\t', '\n', '\U{000B}', '\U{000C}', '\r', '\U{00A0}', '\U{1680}', '\U{2028}', '\U{2029}', '\U{202F}', '\U{205F}'}
    || c in {'\U{3000}', '\U{FEFF}'} || '\U{2000}' <= c <= '\U{200A}'
  }

  lemma SepIs(c: char, k: Sep)
    ensures IsSep(c, k) <==> Separates(c, k)
    ensures IsSpace(c) <==> White(c)
  {
  }

  /** The text is the words in order, between and around them nothing but separators, at least one
      between two words. */
  ghost predicate CutInto(s: string, words: seq<string>, k: Sep)
    decreases |words|
  {
    if words == [] then forall c :: c in s ==> Separates(c, k)
    else exists gap, rest :: s == gap + words[0] + rest && HeadCut(gap, words[0], rest, k) && CutInto(rest, words[1..], k)
  }

  predicate HeadCut(gap: string, w: string, rest: string, k: Sep) {
    && (forall c :: c in gap ==> Separates(c, k))
    && w != "" && (forall c :: c in w ==> !Separates(c, k))
    && (rest != "" ==> Separates(rest[0], k))
  }

  lemma {:induction false} GapSkipped(gap: string, s: string, k: Sep)
    requires forall c :: c in gap ==> Separates(c, k)
    ensures Words(gap + s, k) == Words(s, k)
  {
    if gap == "" {
      assert gap + s == s;
    } else {
      assert gap[0] in gap;
      SepIs(gap[0], k);
      assert (gap + s)[0] == gap[0] && (gap + s)[1..] == gap[1..] + s;
      GapSkipped(gap[1..], s, k);
    }
  }

  lemma WordIs(w: string, k: Sep)
    ensures Word(w, k) <==> w != "" && forall c :: c in w ==> !Separates(c, k)
  {
    if Word(w, k) {
      forall c | c in w ensures !Separates(c, k) {
        SepIs(c, k);
      }
    }
    if forall c :: c in w ==> !Separates(c, k) {
      forall i | 0 <= i < |w| ensures !IsSep(w[i], k) {
        assert w[i] in w;
        SepIs(w[i], k);
      }
    }
  }

  lemma {:induction false} CutReads(s: string, words: seq<string>, k: Sep)
    requires CutInto(s, words, k)
    ensures Words(s, k) == words
    decreases |words|
  {
    hide Words; hide Word;
    if words == [] {
      GapSkipped(s, "", k);
      assert s + "" == s;
      NoWords(k);
    } else {
      var gap, rest :| s == gap + words[0] + rest && HeadCut(gap, words[0], rest, k) && CutInto(rest, words[1..], k);
      CutReads(rest, words[1..], k);
      WordIs(words[0], k);
      if rest != "" {
        SepIs(rest[0], k);
      }
      WordsStep(words[0], rest, k);
      GapSkipped(gap, words[0] + rest, k);
      assert s == gap + (words[0] + rest);
    }
  }

  lemma NoWords(k: Sep)
    ensures Words("", k) == []
  {
  }

  lemma {:induction false} WordsCut(s: string, k: Sep)
    ensures CutInto(s, Words(s, k), k)
    decreases |s|
  {
    if s != "" {
      SepIs(s[0], k);
      if IsSep(s[0], k) {
        WordsCut(s[1..], k);
        GapLonger(s, Words(s[1..], k), k);
      } else {
        var n := Run(s, k);
        var w, rest := s[..n], s[n..];
        WordsCut(rest, k);
        WordIs(w, k);
        if rest != "" {
          SepIs(rest[0], k);
        }
        CutCons("", w, rest, Words(rest, k), k);
        assert s == "" + w + rest && Words(s, k) == [w] + Words(rest, k);
      }
    }
  }

  lemma CutCons(gap: string, w: string, rest: string, words: seq<string>, k: Sep)
    requires HeadCut(gap, w, rest, k) && CutInto(rest, words, k)
    ensures CutInto(gap + w + rest, [w] + words, k)
  {
    hide HeadCut;
    assert ([w] + words)[0] == w && ([w] + words)[1..] == words;
  }

  lemma GapLonger(s: string, words: seq<string>, k: Sep)
    requires s != "" && Separates(s[0], k) && CutInto(s[1..], words, k)
    ensures CutInto(s, words, k)
  {
    if words == [] {
      forall c | c in s ensures Separates(c, k) {
        assert s == [s[0]] + s[1..];
      }
    } else {
      var gap, rest :| s[1..] == gap + words[0] + rest && HeadCut(gap, words[0], rest, k) && CutInto(rest, words[1..], k);
      assert s == ([s[0]] + gap) + words[0] + rest;
      assert HeadCut([s[0]] + gap, words[0], rest, k);
    }
  }

  /** The words of a text are the pieces it is cut into. */
  lemma WordsExact(s: string, words: seq<string>, k: Sep)
    ensures Words(s, k) == words <==> CutInto(s, words, k)
  {
    WordsCut(s, k);
    if CutInto(s, words, k) {
      CutReads(s, words, k);
    }
  }

  // ------------------------------------------------------------------ rows

  /** Blanks, and a comment sign at most once. */
  ghost predicate Indent(s: string) {
    AptFormat.AllBlank(s) || exists a, b :: s == a + "#" + b && AptFormat.AllBlank(a) && AptFormat.AllBlank(b)
  }

  /** Nothing, or a group up to its first closing bracket, and blanks. */
  ghost predicate Grouped(s: string) {
    s == "" || exists inner, b :: s == "[" + inner + "]" + b && ']' !in inner && AptFormat.AllBlank(b)
  }

  ghost predicate Starts(indent: string, kind: string, gap: string, group: string) {
    && Indent(indent) && (kind == "deb" || kind == "deb-src") && gap != "" && AptFormat.AllBlank(gap) && Grouped(group)
  }

  /** The uri of a source line: the first word after the type and at most one bracket group. */
  ghost predicate UriIn(before: string, uri: string, after: string) {
    && uri != "" && (forall c :: c in uri ==> !White(c)) && (after != "" ==> White(after[0]))
    && exists indent, kind, gap, group ::
        before == indent + kind + gap + group && Starts(indent, kind, gap, group) && (group == "" ==> uri[0] != '[')
  }

  lemma IndentOf(sh: Shape)
    requires ShapeOk(sh)
    ensures Indent(sh.ws0 + (if sh.hash then "#" + sh.ws1 else ""))
  {
    AptFormat.BlankIs(sh.ws0);
    AptFormat.BlankIs(sh.ws1);
    hide IsType; hide IsGroup; hide Blank; hide IsSpace;
    assert sh.ws0 + ("#" + sh.ws1) == sh.ws0 + "#" + sh.ws1 && sh.ws0 + "" == sh.ws0;
  }

  lemma GroupOf(sh: Shape)
    requires ShapeOk(sh)
    ensures Grouped(sh.bracket + sh.ws3)
  {
    hide IsType; hide Blank; hide IsSpace;
    if sh.bracket != "" {
      var inner := sh.bracket[1..|sh.bracket| - 1];
      AptFormat.BlankIs(sh.ws3);
      assert sh.bracket == "[" + inner + "]";
      assert ']' !in inner by {
        assert sh.bracket[..|sh.bracket| - 1] == ["["[0]] + inner;
      }
      assert sh.bracket + sh.ws3 == "[" + inner + "]" + sh.ws3;
    }
  }

  lemma ShapeIn(sh: Shape, u: string, b: string)
    requires ShapeOk(sh) && Word(u, Space) && (sh.bracket == "" ==> u[0] != '[') && (b != "" ==> IsSpace(b[0]))
    ensures UriIn(Head(sh), u, b)
  {
    hide IsGroup; hide Grouped; hide Indent; hide White; hide Word; hide IsSpace;
    WordIs(u, Space);
    if b != "" {
      SepIs(b[0], Space);
    }
    IndentOf(sh);
    GroupOf(sh);
    AptFormat.BlankIs(sh.ws2);
    hide Blank;
    var indent := sh.ws0 + (if sh.hash then "#" + sh.ws1 else "");
    HeadJoins(sh);
    hide Head;
    assert Starts(indent, sh.kind, sh.ws2, sh.bracket + sh.ws3);
  }

  lemma ShapeFor(before: string, uri: string, after: string) returns (sh: Shape)
    requires UriIn(before, uri, after)
    ensures ShapeOk(sh) && Word(uri, Space) && (sh.bracket == "" ==> uri[0] != '[') && (after != "" ==> IsSpace(after[0]))
    ensures before == Head(sh)
  {
    hide IsGroup; hide Grouped; hide Indent; hide White; hide Word; hide IsSpace; hide Blank; hide IsType; hide Starts;
    WordIs(uri, Space);
    if after != "" {
      SepIs(after[0], Space);
    }
    var indent, kind, gap, group :|
      before == indent + kind + gap + group && Starts(indent, kind, gap, group) && (group == "" ==> uri[0] != '[');
    sh := StartShape(indent, kind, gap, group);
  }

  lemma StartShape(indent: string, kind: string, gap: string, group: string) returns (sh: Shape)
    requires Starts(indent, kind, gap, group)
    ensures ShapeOk(sh) && Head(sh) == indent + kind + gap + group && (sh.bracket == "" <==> group == "")
  {
    hide IsGroup; hide IsSpace; hide Grouped; hide Indent; hide Blank;
    AptFormat.BlankIs(gap);
    var ws0, hash, ws1 := IndentParts(indent);
    var bracket, ws3 := GroupParts(group);
    sh := Shape(ws0, hash, ws1, kind, gap, bracket, ws3);
    HeadJoins(sh);
    hide Head;
  }

  lemma HeadJoins(sh: Shape)
    ensures Head(sh) == (sh.ws0 + (if sh.hash then "#" + sh.ws1 else "")) + sh.kind + sh.ws2 + (sh.bracket + sh.ws3)
  {
    var mid := if sh.hash then "#" + sh.ws1 else "";
    Assoc(sh.ws0, mid, Tail(sh));
    Assoc(sh.ws0 + mid, sh.kind, sh.ws2 + (sh.bracket + sh.ws3));
    Assoc(sh.ws0 + mid + sh.kind, sh.ws2, sh.bracket + sh.ws3);
  }

  lemma IndentParts(indent: string) returns (ws0: string, hash: bool, ws1: string)
    requires Indent(indent)
    ensures Blank(ws0) && Blank(ws1) && (!hash ==> ws1 == "") && indent == ws0 + (if hash then "#" + ws1 else "")
  {
    hide IsSpace;
    if AptFormat.AllBlank(indent) {
      AptFormat.BlankIs(indent);
      ws0, hash, ws1 := indent, false, "";
    } else {
      var a, b :| indent == a + "#" + b && AptFormat.AllBlank(a) && AptFormat.AllBlank(b);
      AptFormat.BlankIs(a);
      AptFormat.BlankIs(b);
      ws0, hash, ws1 := a, true, b;
    }
  }

  lemma GroupParts(group: string) returns (bracket: string, ws3: string)
    requires Grouped(group)
    ensures Blank(ws3) && group == bracket + ws3 && (bracket == "" <==> group == "")
    ensures bracket != "" ==> IsGroup(bracket)
  {
    hide IsSpace;
    if group == "" {
      bracket, ws3 := "", "";
    } else {
      var inner, b :| group == "[" + inner + "]" + b && ']' !in inner && AptFormat.AllBlank(b);
      AptFormat.BlankIs(b);
      bracket, ws3 := "[" + inner + "]", b;
      assert bracket[..|bracket| - 1] == "[" + inner;
      FindIs(bracket, ']', |bracket| - 1);
    }
  }

  /** A changed one-line-style row: only the scheme of its uri differs. */
  ghost predicate ClassicChange(line: string, l: string, target: Scheme) {
    exists before, u, after, v ::
      line == before + u + after && l == before + v + after && UriIn(before, u, after) && Moved(u, v, target)
  }

  lemma ClassicChanged(line: string, l: string, target: Scheme)
    ensures FlipClassicLine(line, target) == Some(l) ==> ClassicChange(line, l, target)
  {
    if FlipClassicLine(line, target) == Some(l) {
      FoundFlip(line, target);
      hide FlipClassicLine; hide FindUri; hide Head; hide ShapeOk; hide FlipUri; hide Moved; hide UriIn; hide Word;
      var sh, u, b := ShapeOf(line);
      FlippedLine(sh, u, b, target);
      var v := FlipUri(u, target).value;
      FlipExact(u, v, target);
      ShapeIn(sh, u, b);
      Assoc(Head(sh), u, b);
      Assoc(Head(sh), v, b);
    }
  }

  lemma ClassicChanges(line: string, l: string, target: Scheme)
    requires ClassicChange(line, l, target)
    ensures FlipClassicLine(line, target) == Some(l)
  {
    hide FlipClassicLine; hide FindUri; hide Head; hide ShapeOk; hide FlipUri; hide Moved; hide UriIn; hide Word;
    var before, u, after, v :|
      line == before + u + after && l == before + v + after && UriIn(before, u, after) && Moved(u, v, target);
    var sh := ShapeFor(before, u, after);
    FlipExact(u, v, target);
    Assoc(before, u, after);
    Assoc(before, v, after);
    ShapeFind(sh, u, after);
    FlippedLine(sh, u, after, target);
  }

  predicate NoLineEnd(s: string) {
    forall c :: c in s ==> c !in {'\n', '\r', '\U{2028}', '\U{2029}'}
  }

  /** The new uris, one for each old one, of which some moved. */
  ghost predicate UrisAfter(us: seq<string>, vs: seq<string>, target: Scheme) {
    && |vs| == |us| && (forall k :: 0 <= k < |us| ==> UriAfter(us[k], vs[k], target))
    && exists k :: 0 <= k < |us| && Moved(us[k], vs[k], target)
  }

  /** A changed `URIs:` row: the same uris in order, one blank between, with the scheme changed
      where it was the other one. */
  ghost predicate Deb822Change(line: string, l: string, target: Scheme) {
    exists value, us, vs ::
      line == "URIs:" + value && NoLineEnd(value) && CutInto(value, us, SpaceComma) && UrisAfter(us, vs, target)
      && l == "URIs: " + Join(vs, " ")
  }

  lemma BlankDropped(value: string)
    ensures Words(DropOneBlank(value), SpaceComma) == Words(value, SpaceComma)
  {
    if value != "" && value[0] in {' ', '\t'} {
      assert value == [value[0]] + value[1..];
      GapSkipped([value[0]], value[1..], SpaceComma);
    }
  }

  lemma UrisAfterIs(us: seq<string>, vs: seq<string>, target: Scheme)
    ensures UrisAfter(us, vs, target) <==> vs == FlipOrAll(us, target) && AnyFlips(us, target)
  {
    hide UriAfter; hide Moved; hide FlipOr; hide FlipUri;
    if |vs| == |us| {
      forall k | 0 <= k < |us|
        ensures UriAfter(us[k], vs[k], target) <==> FlipOr(us[k], target) == vs[k]
        ensures Moved(us[k], vs[k], target) <==> FlipUri(us[k], target) == Some(vs[k])
        ensures FlipUri(us[k], target).Some? ==> FlipOr(us[k], target) == FlipUri(us[k], target).value
      {
        FlipExact(us[k], vs[k], target);
        FlipOrIs(us[k], target);
      }
      if UrisAfter(us, vs, target) {
        assert vs == FlipOrAll(us, target);
      }
      if vs == FlipOrAll(us, target) && AnyFlips(us, target) {
        var k :| 0 <= k < |us| && FlipUri(us[k], target).Some?;
        assert Moved(us[k], vs[k], target);
      }
    }
  }

  lemma FlipOrIs(u: string, target: Scheme)
    ensures FlipUri(u, target).Some? ==> FlipOr(u, target) == FlipUri(u, target).value
  {
    hide FlipUri;
  }

  lemma Deb822Exact(line: string, l: string, target: Scheme)
    ensures FlipDeb822Line(line, target) == Some(l) <==> Deb822Change(line, l, target)
  {
    hide Words; hide Join; hide FlipOrAll; hide AnyFlips; hide OneLine; hide DropOneBlank; hide UrisAfter; hide CutInto; hide NoLineEnd;
    if StartsWith(line, "URIs:") {
      var value := line[5..];
      assert line == "URIs:" + value;
      AptFormat.OneLineIs(value);
      EndsIs(value);
      BlankDropped(value);
      var us := Words(value, SpaceComma);
      WordsExact(value, us, SpaceComma);
      UrisAfterIs(us, FlipOrAll(us, target), target);
    }
    if Deb822Change(line, l, target) {
      var value, us, vs :| line == "URIs:" + value && NoLineEnd(value) && CutInto(value, us, SpaceComma) && UrisAfter(us, vs, target)
        && l == "URIs: " + Join(vs, " ");
      assert line[5..] == value && StartsWith(line, "URIs:");
      WordsExact(value, us, SpaceComma);
      UrisAfterIs(us, vs, target);
    }
  }

  lemma EndsIs(s: string)
    ensures NoLineEnd(s) <==> forall c :: c in s ==> c !in {'\n', '\r', '\U{2028}', '\U{2029}'}
  {
  }

  ghost predicate RowChange(line: string, l: string, fmt: Format, target: Scheme) {
    match fmt
    case Classic => ClassicChange(line, l, target)
    case Deb822 => Deb822Change(line, l, target)
  }

  /** What a row is changed into, and which rows are. */
  lemma RowExact(line: string, l: string, fmt: Format, target: Scheme)
    ensures NewLine(line, fmt, target) == Some(l) <==> RowChange(line, l, fmt, target)
  {
    hide FlipClassicLine; hide FlipDeb822Line; hide ClassicChange; hide Deb822Change;
    ClassicChanged(line, l, target);
    if ClassicChange(line, l, target) {
      ClassicChanges(line, l, target);
    }
    Deb822Exact(line, l, target);
  }

  /** The plan holds exactly the rows that change, in file order. */
  lemma PlanExact(lines: seq<string>, fmt: Format, target: Scheme)
    ensures var rows := RowsFrom(lines, fmt, target, 0);
      && (forall r: Row :: r in rows <==> r.lineIdx < |lines| && RowChange(lines[r.lineIdx], r.newLine, fmt, target))
      && forall a, b :: 0 <= a < b < |rows| ==> rows[a].lineIdx < rows[b].lineIdx
  {
    hide NewLine; hide RowsFrom; hide RowChange;
    PlannedRows(lines, fmt, target, 0);
    var rows := RowsFrom(lines, fmt, target, 0);
    forall r: Row | r.lineIdx < |lines| ensures r in rows <==> RowChange(lines[r.lineIdx], r.newLine, fmt, target) {
      RowExact(lines[r.lineIdx], r.newLine, fmt, target);
      if NewLine(lines[r.lineIdx], fmt, target) == Some(r.newLine) {
        EveryRowPlanned(lines, fmt, target, 0, r.lineIdx);
      }
    }
  }

  // ------------------------------------------------------------------ markers

  /** The digits of a number. */
  ghost predicate Number(d: string, n: nat) {
    d != "" && (forall c :: c in d ==> '0' <= c <= '9') && ReadsAs(d, n)
  }

  /** Digits read from the left, in base ten. */
  ghost predicate ReadsAs(d: string, n: nat)
    decreases |d|
  {
    if d == "" then n == 0 else d[|d| - 1] == "0123456789"[n % 10] && ReadsAs(d[..|d| - 1], n / 10)
  }

  lemma DigitExact(c: char, k: nat)
    requires k < 10 && IsDigit(c)
    ensures "0123456789"[k] == c <==> DigitValue(c) == k
  {
  }

  lemma TensAndOnes(m: nat, k: nat)
    requires k < 10
    ensures (10 * m + k) / 10 == m && (10 * m + k) % 10 == k
  {
  }

  lemma {:induction false} ValueExact(d: string, n: nat)
    requires forall i :: 0 <= i < |d| ==> IsDigit(d[i])
    ensures Value(d) == n <==> ReadsAs(d, n)
    decreases |d|
  {
    if d != "" {
      var c, front := d[|d| - 1], d[..|d| - 1];
      hide IsDigit; hide DigitValue;
      ValueExact(front, n / 10);
      DigitExact(c, n % 10);
      TensAndOnes(Value(front), DigitValue(c));
    }
  }

  lemma DigitsAll(d: string)
    ensures (forall i :: 0 <= i < |d| ==> IsDigit(d[i])) <==> forall c :: c in d ==> '0' <= c <= '9'
  {
    if forall c :: c in d ==> '0' <= c <= '9' {
      forall i | 0 <= i < |d| ensures IsDigit(d[i]) {
        assert d[i] in d;
      }
    }
  }

  lemma NumberExact(d: string, n: nat)
    ensures Number(d, n) <==> d != "" && (forall i :: 0 <= i < |d| ==> IsDigit(d[i])) && Value(d) == n
  {
    hide IsDigit; hide Value; hide ReadsAs;
    DigitsAll(d);
    if forall i :: 0 <= i < |d| ==> IsDigit(d[i]) {
      ValueExact(d, n);
    }
  }

  /** A comment line that names a block and says whether it begins or ends. */
  ghost predicate Marks(line: string, id: nat, word: string) {
    exists d, tail ::
      line == "# apt-scheme-" + d + " " + word + tail && Number(d, id) && forall c :: c in tail ==> c == ' ' || c == '\t'
  }

  lemma {:induction false} DigitsOf(s: string, n: nat)
    requires n <= |s| && (forall i :: 0 <= i < n ==> IsDigit(s[i])) && (n < |s| ==> !IsDigit(s[n]))
    ensures Digits(s) == n
    decreases n
  {
    if n > 0 {
      DigitsOf(s[1..], n - 1);
    }
  }

  lemma TailIsBlank(s: string)
    ensures BlankTail(s) <==> forall c :: c in s ==> c == ' ' || c == '\t'
  {
    if forall c :: c in s ==> c == ' ' || c == '\t' {
      forall i | 0 <= i < |s| ensures s[i] == ' ' || s[i] == '\t' {
        assert s[i] in s;
      }
    }
  }

  lemma AfterDigits(d: string, rest: string)
    requires (forall i :: 0 <= i < |d| ==> IsDigit(d[i])) && rest != "" && rest[0] == ' '
    ensures Digits(d + rest) == |d| && (d + rest)[..|d|] == d && (d + rest)[|d|..] == rest
  {
    SpaceNoDigit();
    hide IsDigit;
    DigitsOf(d + rest, |d|);
  }

  lemma AfterWord(tail: string)
    ensures var b, e := " begin" + tail, " end" + tail;
      && StartsWith(b, " begin") && b[6..] == tail && StartsWith(e, " end") && e[4..] == tail && !StartsWith(e, " begin")
  {
    var e := " end" + tail;
    assert |e| >= 6 ==> e[..6][1] == 'e';
  }

  lemma AfterPrefix(p: string)
    ensures StartsWith(PREFIX + p, PREFIX) && (PREFIX + p)[|PREFIX|..] == p
  {
  }

  lemma MarkerParts(d: string, word: string, tail: string)
    ensures "# apt-scheme-" + d + " " + word + tail == PREFIX + (d + (" " + word + tail))
  {
    Assoc("# apt-scheme-" + d, " " + word, tail);
    Assoc("# apt-scheme-" + d, " ", word);
    Assoc("# apt-scheme-", d, " " + word + tail);
  }

  lemma MarkRead(d: string, id: nat, tail: string)
    requires Number(d, id) && BlankTail(tail)
    ensures MarkOf(PREFIX + (d + (" begin" + tail))) == Begin(id)
    ensures MarkOf(PREFIX + (d + (" end" + tail))) == End(id)
  {
    hide Number; hide IsDigit; hide Value; hide Digits; hide StartsWith; hide BlankTail;
    NumberExact(d, id);
    AfterWord(tail);
    AfterDigits(d, " begin" + tail);
    AfterPrefix(d + (" begin" + tail));
    AfterDigits(d, " end" + tail);
    AfterPrefix(d + (" end" + tail));
  }

  lemma MarkedReads(line: string, id: nat, word: string)
    requires Marks(line, id, word) && (word == "begin" || word == "end")
    ensures MarkOf(line) == if word == "begin" then Begin(id) else End(id)
  {
    hide Number; hide MarkOf; hide BlankTail;
    var d, tail :| line == "# apt-scheme-" + d + " " + word + tail && Number(d, id) && forall c :: c in tail ==> c == ' ' || c == '\t';
    TailIsBlank(tail);
    MarkerParts(d, word, tail);
    MarkRead(d, id, tail);
    assert " " + "begin" == " begin" && " " + "end" == " end";
  }

  lemma SpaceNoDigit()
    ensures !IsDigit(' ')
  {
  }

  lemma HeadParts(s: string, head: string)
    ensures StartsWith(s, head) ==> |head| <= |s| && s == head + s[|head|..]
  {
  }

  lemma DropTwice(s: string, n: nat, m: nat)
    requires n + m <= |s|
    ensures s == s[..n] + s[n..] && s[n..][m..] == s[n + m..]
  {
  }

  /** What the pattern of a marker takes from a line behind its head. */
  lemma RestTaken(p: string, n: nat, word: string, m: nat) returns (tail: string)
    requires n <= |p| && StartsWith(p[n..], " " + word) && m == |word| + 1
    ensures n + m <= |p| && tail == p[n + m..] && p == p[..n] + (" " + word + tail)
  {
    HeadParts(p[n..], " " + word);
    hide StartsWith;
    DropTwice(p, n, m);
    tail := p[n + m..];
  }

  lemma MarkTaken(line: string) returns (d: string, word: string, tail: string)
    requires MarkOf(line) != NoMark
    ensures line == PREFIX + (d + (" " + word + tail)) && BlankTail(tail)
    ensures d != "" && (forall i :: 0 <= i < |d| ==> IsDigit(d[i])) && MarkOf(line).id == Value(d)
    ensures word == if MarkOf(line).Begin? then "begin" else "end"
  {
    hide IsDigit; hide Value; hide BlankTail; hide StartsWith; hide Digits;
    HeadParts(line, PREFIX);
    var p := line[|PREFIX|..];
    var n := Digits(p);
    d := p[..n];
    assert " " + "begin" == " begin" && " " + "end" == " end";
    if MarkOf(line).Begin? {
      word := "begin";
      tail := RestTaken(p, n, word, 6);
    } else {
      word := "end";
      tail := RestTaken(p, n, word, 4);
    }
  }

  lemma ReadsMarked(line: string)
    ensures MarkOf(line).Begin? ==> Marks(line, MarkOf(line).id, "begin")
    ensures MarkOf(line).End? ==> Marks(line, MarkOf(line).id, "end")
  {
    hide IsDigit; hide Value; hide Number; hide MarkOf; hide BlankTail;
    if MarkOf(line) != NoMark {
      var d, word, tail := MarkTaken(line);
      MarkerParts(d, word, tail);
      NumberExact(d, Value(d));
      TailIsBlank(tail);
    }
  }

  /** Which lines are markers, and of which block. */
  lemma MarkExact(line: string, id: nat)
    ensures MarkOf(line) == Begin(id) <==> Marks(line, id, "begin")
    ensures MarkOf(line) == End(id) <==> Marks(line, id, "end")
  {
    hide MarkOf; hide Marks;
    ReadsMarked(line);
    if Marks(line, id, "begin") {
      MarkedReads(line, id, "begin");
    }
    if Marks(line, id, "end") {
      MarkedReads(line, id, "end");
    }
  }

  // ------------------------------------------------------------------ blocks

  /** Before line `i` a block is open: its begin marker is the last marker. */
  predicate OpenAt(lines: seq<string>, i: nat, o: Open) {
    o.begin < i <= |lines| && MarkOf(lines[o.begin]) == Begin(o.id) && forall j :: o.begin < j < i ==> MarkOf(lines[j]) == NoMark
  }

  /** No block is open: the last marker, if any, ends one. */
  predicate ClosedAt(lines: seq<string>, i: nat) {
    i <= |lines| && (Unmarked(lines, 0, i) || exists e :: 0 <= e < i && MarkOf(lines[e]).End? && Unmarked(lines, e + 1, i))
  }

  predicate Unmarked(lines: seq<string>, from: nat, to: nat) {
    to <= |lines| && forall j :: from <= j < to ==> MarkOf(lines[j]) == NoMark
  }

  /** The markers are wrong at line `i`, or at the end. */
  ghost predicate WrongAt(lines: seq<string>, i: nat, e: ScanError) {
    match e
    case Nested(id, n) => i < |lines| && n == i + 1 && MarkOf(lines[i]) == Begin(id) && !ClosedAt(lines, i)
    case Unmatched(id, n) => i < |lines| && n == i + 1 && MarkOf(lines[i]) == End(id) && !exists o :: OpenAt(lines, i, o) && o.id == id
    case NoEnd(id, n) => i == |lines| && n > 0 && OpenAt(lines, i, Open(id, n - 1))
  }

  ghost predicate FineAt(lines: seq<string>, i: nat) {
    forall e :: !WrongAt(lines, i, e)
  }

  predicate At(lines: seq<string>, i: nat, open: Option<Open>) {
    match open
    case Some(o) => OpenAt(lines, i, o)
    case None => ClosedAt(lines, i)
  }

  lemma OneOpen(lines: seq<string>, i: nat, o: Open, p: Open)
    requires OpenAt(lines, i, o) && OpenAt(lines, i, p)
    ensures o == p
  {
    hide MarkOf;
  }

  lemma NotBoth(lines: seq<string>, i: nat, o: Open)
    requires OpenAt(lines, i, o)
    ensures !ClosedAt(lines, i)
  {
    hide MarkOf;
  }

  lemma AtNext(lines: seq<string>, i: nat, open: Option<Open>)
    requires i < |lines| && At(lines, i, open)
    ensures MarkOf(lines[i]) == NoMark ==> At(lines, i + 1, open)
    ensures MarkOf(lines[i]).Begin? ==> At(lines, i + 1, Some(Open(MarkOf(lines[i]).id, i)))
    ensures MarkOf(lines[i]).End? ==> At(lines, i + 1, None)
  {
    hide MarkOf;
  }

  /** What is wrong at a line, for the block that is open there. */
  function Trouble(lines: seq<string>, i: nat, open: Option<Open>): Option<ScanError>
    requires i <= |lines|
  {
    if i == |lines| then (if open.None? then None else Some(NoEnd(open.value.id, open.value.begin + 1)))
    else
      var mark := MarkOf(lines[i]);
      if mark.Begin? && open.Some? then Some(Nested(mark.id, i + 1))
      else if mark.End? && (open.None? || open.value.id != mark.id) then Some(Unmatched(mark.id, i + 1))
      else None
  }

  lemma TroubleExact(lines: seq<string>, i: nat, open: Option<Open>, e: ScanError)
    requires i <= |lines| && At(lines, i, open)
    ensures WrongAt(lines, i, e) <==> Trouble(lines, i, open) == Some(e)
  {
    hide MarkOf; hide OpenAt; hide ClosedAt;
    if open.Some? {
      NotBoth(lines, i, open.value);
      forall o | OpenAt(lines, i, o) ensures o == open.value {
        OneOpen(lines, i, open.value, o);
      }
      assert Open(open.value.id, open.value.begin + 1 - 1) == open.value;
    } else {
      forall o | OpenAt(lines, i, o) ensures false {
        NotBoth(lines, i, o);
      }
    }
  }

  lemma TroubleFine(lines: seq<string>, i: nat, open: Option<Open>)
    requires i <= |lines| && At(lines, i, open)
    ensures FineAt(lines, i) <==> Trouble(lines, i, open).None?
  {
    hide WrongAt; hide Trouble; hide At;
    forall e ensures WrongAt(lines, i, e) <==> Trouble(lines, i, open) == Some(e) {
      TroubleExact(lines, i, open, e);
    }
    if Trouble(lines, i, open).Some? {
      assert WrongAt(lines, i, Trouble(lines, i, open).value);
    }
  }

  lemma TroubleStops(lines: seq<string>, i: nat, open: Option<Open>)
    requires i <= |lines| && Trouble(lines, i, open).Some?
    ensures Scan(lines, i, open) == Err(Trouble(lines, i, open).value)
  {
    hide MarkOf;
  }

  /** From line `i` on, the first line where the markers are wrong, and how. */
  ghost predicate FirstWrong(lines: seq<string>, i: nat, e: ScanError) {
    exists k :: i <= k <= |lines| && WrongAt(lines, k, e) && forall j :: i <= j < k ==> FineAt(lines, j)
  }

  lemma FirstStep(lines: seq<string>, i: nat, e: ScanError)
    requires i < |lines| && FineAt(lines, i)
    ensures FirstWrong(lines, i, e) <==> FirstWrong(lines, i + 1, e)
  {
    hide WrongAt;
    if FirstWrong(lines, i, e) {
      var k :| i <= k <= |lines| && WrongAt(lines, k, e) && forall j :: i <= j < k ==> FineAt(lines, j);
      assert k != i;
    }
  }

  lemma FirstHere(lines: seq<string>, i: nat, e: ScanError)
    requires i <= |lines| && (!FineAt(lines, i) || i == |lines|)
    ensures FirstWrong(lines, i, e) <==> WrongAt(lines, i, e)
  {
    hide WrongAt; hide FineAt;
  }

  /** The block that is open after line `i`. */
  function OpenNext(lines: seq<string>, i: nat, open: Option<Open>): Option<Open>
    requires i < |lines|
  {
    match MarkOf(lines[i])
    case NoMark => open
    case Begin(id) => Some(Open(id, i))
    case End(_) => None
  }

  lemma ScanOn(lines: seq<string>, i: nat, open: Option<Open>)
    requires i < |lines| && Trouble(lines, i, open).None?
    ensures Scan(lines, i, open) ==
      if MarkOf(lines[i]).End?
      then AddBlock(Block(open.value.id, open.value.begin, i, Content(lines, open.value.begin + 1, i)), Scan(lines, i + 1, None))
      else Scan(lines, i + 1, OpenNext(lines, i, open))
  {
    hide MarkOf; hide Content;
  }

  lemma {:induction false} ScanWrong(lines: seq<string>, i: nat, open: Option<Open>, e: ScanError)
    requires i <= |lines| && At(lines, i, open)
    ensures Scan(lines, i, open) == Err(e) <==> FirstWrong(lines, i, e)
    decreases |lines| - i
  {
    hide MarkOf; hide Scan; hide At; hide FineAt; hide WrongAt; hide FirstWrong; hide Content;
    TroubleFine(lines, i, open);
    TroubleExact(lines, i, open, e);
    if Trouble(lines, i, open).Some? {
      TroubleStops(lines, i, open);
      FirstHere(lines, i, e);
    } else if i == |lines| {
      FirstHere(lines, i, e);
      ScanEnd(lines, open);
    } else {
      ScanOn(lines, i, open);
      AtNext(lines, i, open);
      FirstStep(lines, i, e);
      ScanWrong(lines, i + 1, OpenNext(lines, i, open), e);
    }
  }

  /** The lines from a begin marker to the end marker of the same block, no marker between. */
  ghost predicate BlockAt(lines: seq<string>, b: Block) {
    && OpenAt(lines, b.end, Open(b.id, b.begin)) && b.end < |lines| && MarkOf(lines[b.end]) == End(b.id)
    && (forall k :: k in b.content <==> b.begin < k < b.end && !(|lines[k]| >= 10 && lines[k][..10] == "# source: "))
    && forall x, y :: 0 <= x < y < |b.content| ==> b.content[x] < b.content[y]
  }

  predicate Rising(s: seq<nat>) {
    forall x, y :: 0 <= x < y < |s| ==> s[x] < s[y]
  }

  lemma Members(a: seq<nat>, b: seq<nat>)
    requires forall k :: k in a ==> k in b
    ensures a != [] ==> b != [] && a[0] in b
  {
    if a != [] {
      assert a[0] in a;
    }
  }

  lemma {:induction false} RisingSame(a: seq<nat>, b: seq<nat>)
    requires Rising(a) && Rising(b) && forall k :: k in a <==> k in b
    ensures a == b
    decreases |a|
  {
    Members(a, b);
    Members(b, a);
    if a != [] && b != [] {
      assert a == [a[0]] + a[1..] && b == [b[0]] + b[1..];
      forall k ensures k in a[1..] <==> k in b[1..] {
        assert k in a[1..] <==> k in a && k != a[0];
        assert k in b[1..] <==> k in b && k != b[0];
      }
      RisingSame(a[1..], b[1..]);
    }
  }

  lemma RisingCons(k: nat, s: seq<nat>)
    requires Rising(s) && forall x :: x in s ==> k < x
    ensures Rising([k] + s)
  {
    forall x | 0 <= x < |s| ensures k < s[x] {
      assert s[x] in s;
    }
  }

  lemma {:induction false} ContentRises(lines: seq<string>, j: nat, end: nat)
    requires end <= |lines|
    ensures Rising(Content(lines, j, end))
    decreases end - j
  {
    hide IsProvenance;
    if j < end {
      ContentRises(lines, j + 1, end);
      ContentIs(lines, j + 1, end);
      RisingCons(j, Content(lines, j + 1, end));
      hide Rising;
      assert [] + Content(lines, j + 1, end) == Content(lines, j + 1, end);
    }
  }

  lemma ProvenanceIs(line: string)
    ensures IsProvenance(line) <==> |line| >= 10 && line[..10] == "# source: "
  {
  }

  /** The content of a block in both ways. */
  lemma ContentExact(lines: seq<string>, j: nat, end: nat, content: seq<nat>)
    requires end <= |lines|
    ensures content == Content(lines, j, end) <==>
      Rising(content) && forall k :: k in content <==> j <= k < end && !IsProvenance(lines[k])
  {
    hide IsProvenance; hide Content; hide Rising;
    ContentIs(lines, j, end);
    ContentRises(lines, j, end);
    if Rising(content) && forall k :: k in content <==> j <= k < end && !IsProvenance(lines[k]) {
      RisingSame(content, Content(lines, j, end));
    }
  }

  lemma BlockIs(lines: seq<string>, b: Block)
    ensures BlockAt(lines, b) <==>
      b.end < |lines| && OpenAt(lines, b.end, Open(b.id, b.begin)) && MarkOf(lines[b.end]) == End(b.id) &&
      b.content == Content(lines, b.begin + 1, b.end)
  {
    hide MarkOf; hide IsProvenance; hide Content; hide OpenAt;
    if b.end < |lines| {
      forall k | 0 <= k < |lines| ensures IsProvenance(lines[k]) <==> |lines[k]| >= 10 && lines[k][..10] == "# source: " {
        ProvenanceIs(lines[k]);
      }
      ContentExact(lines, b.begin + 1, b.end, b.content);
    }
  }

  lemma AddedIn(x: Block, r: Scanned)
    requires r.Ok?
    ensures AddBlock(x, r).Ok? && forall b :: b in AddBlock(x, r).value <==> b == x || b in r.value
  {
  }

  /** A block that ends at line `i`. */
  lemma EndsHere(lines: seq<string>, i: nat, open: Option<Open>, b: Block)
    requires i < |lines| && At(lines, i, open) && Trouble(lines, i, open).None?
    ensures BlockAt(lines, b) && b.end == i <==>
      MarkOf(lines[i]).End? && b == Block(open.value.id, open.value.begin, i, Content(lines, open.value.begin + 1, i))
  {
    hide MarkOf; hide Content; hide OpenAt; hide ClosedAt; hide BlockAt;
    BlockIs(lines, b);
    if open.Some? && b.end == i && OpenAt(lines, i, Open(b.id, b.begin)) {
      OneOpen(lines, i, open.value, Open(b.id, b.begin));
    }
  }

  lemma {:induction false} ScanFinds(lines: seq<string>, i: nat, open: Option<Open>, b: Block)
    requires i <= |lines| && At(lines, i, open) && Scan(lines, i, open).Ok?
    ensures b in Scan(lines, i, open).value <==> BlockAt(lines, b) && i <= b.end
    decreases |lines| - i
  {
    hide MarkOf; hide Scan; hide At; hide Content; hide BlockAt; hide Trouble; hide AddBlock;
    if i == |lines| {
      ScanEnd(lines, open);
      BlockEnds(lines, b);
    } else {
      if Trouble(lines, i, open).Some? {
        TroubleStops(lines, i, open);
        assert false;
      }
      ScanOn(lines, i, open);
      AtNext(lines, i, open);
      EndsHere(lines, i, open, b);
      var next := OpenNext(lines, i, open);
      if MarkOf(lines[i]).End? {
        EndOpen(lines, i, open);
        var x := Block(open.value.id, open.value.begin, i, Content(lines, open.value.begin + 1, i));
        assert Scan(lines, i + 1, None).Ok? by {
          AddedErr(x, Scan(lines, i + 1, None));
        }
        AddedIn(x, Scan(lines, i + 1, None));
      }
      ScanFinds(lines, i + 1, next, b);
    }
  }

  lemma AddedErr(x: Block, r: Scanned)
    requires AddBlock(x, r).Ok?
    ensures r.Ok?
  {
  }

  lemma EndOpen(lines: seq<string>, i: nat, open: Option<Open>)
    requires i < |lines| && Trouble(lines, i, open).None? && MarkOf(lines[i]).End?
    ensures open.Some?
  {
    hide MarkOf;
  }

  lemma BlockEnds(lines: seq<string>, b: Block)
    ensures BlockAt(lines, b) ==> b.end < |lines|
  {
    hide MarkOf;
  }

  /** Scanning a file finds all its blocks, or complains about the first line where the markers are
      wrong: a begin inside a block, an end of no open block, or a block without an end. */
  lemma ScanExact(lines: seq<string>, e: ScanError, b: Block)
    ensures Scan(lines, 0, None) == Err(e) <==> FirstWrong(lines, 0, e)
    ensures Scan(lines, 0, None).Ok? ==> (b in Scan(lines, 0, None).value <==> BlockAt(lines, b))
  {
    hide MarkOf; hide Scan; hide FirstWrong; hide BlockAt; hide Content;
    assert At(lines, 0, None) by {
      assert Unmarked(lines, 0, 0);
    }
    hide At;
    ScanWrong(lines, 0, None, e);
    if Scan(lines, 0, None).Ok? {
      ScanFinds(lines, 0, None, b);
    }
  }

  // ------------------------------------------------------------------ ids

  /** How many of the rows are not the only content of a block. */
  function Loose(rows: seq<Row>, blocks: seq<Block>): nat {
    if rows == [] then 0
    else (if Single(blocks, rows[0].lineIdx) then 0 else 1) + Loose(rows[1..], blocks)
  }

  predicate Single(blocks: seq<Block>, i: nat) {
    exists k :: 0 <= k < |blocks| && blocks[k].content == [i]
  }

  /** The largest id in use, 0 when there is none. */
  predicate Largest(blocks: seq<Block>, m: nat) {
    (forall k :: 0 <= k < |blocks| ==> blocks[k].id <= m) && (m == 0 || exists k :: 0 <= k < |blocks| && blocks[k].id == m)
  }

  lemma SingleIs(blocks: seq<Block>, i: nat)
    ensures i in SingleContent(blocks) <==> Single(blocks, i)
  {
    hide SingleContent;
    SingleKeys(blocks);
    if Single(blocks, i) {
      var k :| 0 <= k < |blocks| && blocks[k].content == [i];
      assert blocks[k] in blocks;
    }
  }

  lemma {:induction false} LargestIs(blocks: seq<Block>)
    ensures Largest(blocks, MaxId(blocks))
    decreases |blocks|
  {
    if blocks != [] {
      var front := blocks[..|blocks| - 1];
      LargestIs(front);
      assert forall k :: 0 <= k < |front| ==> blocks[k] == front[k];
    }
  }

  lemma {:induction false} AdoptCounts(rows: seq<Row>, blocks: seq<Block>, id: nat, acc: map<nat, nat>, k: nat)
    requires InOrder(rows) && k < |rows| && !Single(blocks, rows[k].lineIdx)
    ensures var adopt := Adopt(rows, SingleContent(blocks), id, acc);
      rows[k].lineIdx in adopt && adopt[rows[k].lineIdx] == id + Loose(rows[..k], blocks)
    decreases |rows|
  {
    hide SingleContent; hide Single; hide InOrder;
    var row, rest := rows[0], rows[1..];
    SingleIs(blocks, row.lineIdx);
    RowsCons(rows, row.lineIdx);
    var skip := Single(blocks, row.lineIdx);
    var from, next := if skip then id else id + 1, if skip then acc else acc[row.lineIdx := id];
    assert Adopt(rows, SingleContent(blocks), id, acc) == Adopt(rest, SingleContent(blocks), from, next);
    hide Adopt;
    if k == 0 {
      if HasRow(rest, row.lineIdx) {
        assert false;
      }
      AdoptKeeps(rest, SingleContent(blocks), from, next, row.lineIdx);
    } else {
      assert rest[k - 1] == rows[k] && rows[..k][0] == row && rows[..k][1..] == rest[..k - 1];
      AdoptCounts(rest, blocks, from, next, k - 1);
    }
  }

  /** The adopted rows are numbered on from `first`, in file order. */
  predicate Numbered(rows: seq<Row>, blocks: seq<Block>, adopt: map<nat, nat>, first: nat) {
    forall k :: 0 <= k < |rows| && rows[k].lineIdx in adopt ==> adopt[rows[k].lineIdx] == first + Loose(rows[..k], blocks)
  }

  ghost predicate Adopted(rows: seq<Row>, blocks: seq<Block>, adopt: map<nat, nat>) {
    forall i :: i in adopt <==> HasRow(rows, i) && !Single(blocks, i)
  }

  lemma AdoptedIds(rows: seq<Row>, blocks: seq<Block>, first: nat)
    requires InOrder(rows)
    ensures Adopted(rows, blocks, Adopt(rows, SingleContent(blocks), first, map[]))
    ensures Numbered(rows, blocks, Adopt(rows, SingleContent(blocks), first, map[]), first)
  {
    hide SingleContent; hide Single; hide InOrder; hide Adopt; hide HasRow; hide Loose;
    var adopt := Adopt(rows, SingleContent(blocks), first, map[]);
    forall i ensures i in adopt <==> HasRow(rows, i) && !Single(blocks, i) {
      SingleIs(blocks, i);
      AdoptKeys(rows, SingleContent(blocks), first, map[], i);
    }
    forall k | 0 <= k < |rows| && rows[k].lineIdx in adopt ensures adopt[rows[k].lineIdx] == first + Loose(rows[..k], blocks) {
      AdoptCounts(rows, blocks, first, map[], k);
    }
  }

  /** A row is adopted unless it is the only content of a block; the ids go on from the largest one
      in use, one after the other in file order. */
  lemma AdoptExact(lines: seq<string>, fmt: Format, target: Scheme, rows: seq<Row>, blocks: seq<Block>, adopt: map<nat, nat>)
    requires PlanOf(lines, fmt, target, rows, blocks, adopt)
    ensures Adopted(rows, blocks, adopt)
    ensures exists m: nat :: Largest(blocks, m) && Numbered(rows, blocks, adopt, m + 1)
  {
    PlanFacts(lines, fmt, target, rows, blocks, adopt);
    hide RowsFrom; hide Scan; hide Blocked; hide SingleContent; hide InOrder; hide Largest; hide Adopt; hide MarkOf; hide IsProvenance;
    hide Adopted; hide Numbered;
    LargestIs(blocks);
    AdoptedIds(rows, blocks, MaxId(blocks) + 1);
  }

  // ------------------------------------------------------------------ the text

  /** How many lines before `i` are wrapped. */
  function Wrapped(adopt: map<nat, nat>, i: nat): nat {
    if i == 0 then 0 else Wrapped(adopt, i - 1) + if i - 1 in adopt then 1 else 0
  }

  /** Line `i` and its markers, from place `p` of the output on. */
  ghost predicate Placed(out: seq<string>, p: nat, l: string, id: Option<nat>) {
    match id
    case None => p < |out| && out[p] == l
    case Some(n) => p + 2 < |out| && Marker(out[p], n, "begin") && out[p + 1] == l && Marker(out[p + 2], n, "end")
  }

  /** A marker line as it is written: the number without leading zeros, no blanks at the end. */
  ghost predicate Marker(line: string, id: nat, word: string) {
    exists d :: line == "# apt-scheme-" + d + " " + word && Number(d, id) && (d[0] != '0' || d == "0")
  }

  /** Every line is there once, in order, changed or as it was, between markers where it is
      adopted; and nothing else. */
  ghost predicate Rewritten(lines: seq<string>, byLine: map<nat, string>, adopt: map<nat, nat>, out: seq<string>) {
    |out| == |lines| + 2 * Wrapped(adopt, |lines|) && forall i :: 0 <= i < |lines| ==> LineAt(lines, byLine, adopt, out, i)
  }

  ghost predicate LineAt(lines: seq<string>, byLine: map<nat, string>, adopt: map<nat, nat>, out: seq<string>, i: nat)
    requires i < |lines|
  {
    Placed(out, i + 2 * Wrapped(adopt, i), if i in byLine then byLine[i] else lines[i], if i in adopt then Some(adopt[i]) else None)
  }

  lemma {:induction false} DecimalLead(n: nat)
    ensures Decimal(n)[0] != '0' || Decimal(n) == "0"
  {
    if n >= 10 {
      DecimalLead(n / 10);
      ZeroIs();
    } else {
      DigitZero(n);
    }
  }

  lemma ZeroIs()
    ensures Value("0") == 0
  {
    assert "0"[..0] == "";
    assert Value("") == 0;
  }

  lemma DigitZero(n: nat)
    requires n < 10
    ensures DigitChar(n) == '0' <==> n == 0
  {
  }

  lemma MarkerWritten(id: nat)
    ensures Marker(BeginLine(id), id, "begin") && Marker(EndLine(id), id, "end")
  {
    hide Decimal; hide Number; hide IsDigit; hide Value;
    var d := Decimal(id);
    NumberExact(d, id);
    DecimalLead(id);
    assert BeginLine(id) == "# apt-scheme-" + d + " " + "begin";
    assert EndLine(id) == "# apt-scheme-" + d + " " + "end";
  }

  lemma PlacedAppend(out: seq<string>, more: seq<string>, p: nat, l: string, id: Option<nat>)
    requires Placed(out, p, l, id)
    ensures Placed(out + more, p, l, id)
  {
    hide Marker;
  }

  lemma GroupPlaced(out: seq<string>, lines: seq<string>, byLine: map<nat, string>, adopt: map<nat, nat>, i: nat)
    requires i < |lines|
    ensures Placed(out + Group(lines, byLine, adopt, i), |out|, if i in byLine then byLine[i] else lines[i],
      if i in adopt then Some(adopt[i]) else None)
    ensures |Group(lines, byLine, adopt, i)| == if i in adopt then 3 else 1
  {
    hide Marker; hide BeginLine; hide EndLine;
    if i in adopt {
      MarkerWritten(adopt[i]);
    }
  }

  /** The output up to line `n`. */
  function Upto(lines: seq<string>, byLine: map<nat, string>, adopt: map<nat, nat>, n: nat): seq<string>
    requires n <= |lines|
  {
    if n == 0 then [] else Upto(lines, byLine, adopt, n - 1) + Group(lines, byLine, adopt, n - 1)
  }

  lemma {:induction false} RenderedUpto(lines: seq<string>, byLine: map<nat, string>, adopt: map<nat, nat>, n: nat)
    requires n <= |lines|
    ensures Rendered(lines, byLine, adopt, 0) == Upto(lines, byLine, adopt, n) + Rendered(lines, byLine, adopt, n)
  {
    hide Group;
    if n > 0 {
      RenderedUpto(lines, byLine, adopt, n - 1);
      Assoc(Upto(lines, byLine, adopt, n - 1), Group(lines, byLine, adopt, n - 1), Rendered(lines, byLine, adopt, n));
    }
  }

  ghost predicate RewrittenTo(lines: seq<string>, byLine: map<nat, string>, adopt: map<nat, nat>, out: seq<string>, n: nat)
    requires n <= |lines|
  {
    |out| == n + 2 * Wrapped(adopt, n) && forall i :: 0 <= i < n ==> LineAt(lines, byLine, adopt, out, i)
  }

  lemma LineKept(lines: seq<string>, byLine: map<nat, string>, adopt: map<nat, nat>, out: seq<string>, more: seq<string>, i: nat)
    requires i < |lines| && LineAt(lines, byLine, adopt, out, i)
    ensures LineAt(lines, byLine, adopt, out + more, i)
  {
    hide Placed;
    PlacedAppend(out, more, i + 2 * Wrapped(adopt, i), if i in byLine then byLine[i] else lines[i], if i in adopt then Some(adopt[i]) else None);
  }

  lemma LineNext(out: seq<string>, lines: seq<string>, byLine: map<nat, string>, adopt: map<nat, nat>, i: nat)
    requires i < |lines| && |out| == i + 2 * Wrapped(adopt, i)
    ensures LineAt(lines, byLine, adopt, out + Group(lines, byLine, adopt, i), i)
    ensures |out + Group(lines, byLine, adopt, i)| == i + 1 + 2 * Wrapped(adopt, i + 1)
  {
    hide Placed; hide Group;
    GroupPlaced(out, lines, byLine, adopt, i);
  }

  lemma {:induction false} UptoRewritten(lines: seq<string>, byLine: map<nat, string>, adopt: map<nat, nat>, n: nat)
    requires n <= |lines|
    ensures RewrittenTo(lines, byLine, adopt, Upto(lines, byLine, adopt, n), n)
  {
    hide Group; hide LineAt;
    if n > 0 {
      UptoRewritten(lines, byLine, adopt, n - 1);
      var out := Upto(lines, byLine, adopt, n - 1);
      LineNext(out, lines, byLine, adopt, n - 1);
      var more := out + Group(lines, byLine, adopt, n - 1);
      forall i | 0 <= i < n - 1 ensures LineAt(lines, byLine, adopt, more, i) {
        LineKept(lines, byLine, adopt, out, Group(lines, byLine, adopt, n - 1), i);
      }
    }
  }

  lemma RenderExact(lines: seq<string>, byLine: map<nat, string>, adopt: map<nat, nat>)
    ensures Rewritten(lines, byLine, adopt, Rendered(lines, byLine, adopt, 0))
  {
    hide LineAt; hide Wrapped; hide Upto;
    RenderedUpto(lines, byLine, adopt, |lines|);
    UptoRewritten(lines, byLine, adopt, |lines|);
    assert Rendered(lines, byLine, adopt, |lines|) == [];
    assert Upto(lines, byLine, adopt, |lines|) + [] == Upto(lines, byLine, adopt, |lines|);
  }

  /** The changed lines of the plan. */
  ghost predicate Changes(lines: seq<string>, byLine: map<nat, string>, fmt: Format, target: Scheme) {
    forall i, l :: 0 <= i < |lines| ==> ((i in byLine && byLine[i] == l) <==> RowChange(lines[i], l, fmt, target))
  }

  lemma ChangesAre(lines: seq<string>, fmt: Format, target: Scheme)
    ensures Changes(lines, RowMap(RowsFrom(lines, fmt, target, 0)), fmt, target)
  {
    hide NewLine; hide RowsFrom; hide RowMap; hide RowChange;
    PlanMatches(lines, fmt, target);
    var byLine := RowMap(RowsFrom(lines, fmt, target, 0));
    forall i, l | 0 <= i < |lines| ensures (i in byLine && byLine[i] == l) <==> RowChange(lines[i], l, fmt, target) {
      RowExact(lines[i], l, fmt, target);
    }
  }

  /** The rewritten file: line by line the old one, with the rows that change changed, and a pair of
      markers around each adopted line. */
  lemma RewriteExact(text: string, fmt: Format, target: Scheme, adopt: map<nat, nat>)
    ensures var lines, out := Split(text, '\n'), Split(RewrittenText(text, fmt, target, adopt), '\n');
      exists byLine: map<nat, string> :: Changes(lines, byLine, fmt, target) && Rewritten(lines, byLine, adopt, out)
  {
    hide Split; hide RewrittenText; hide Rendered; hide RowMap; hide RowsFrom; hide Changes; hide Rewritten;
    var lines := Split(text, '\n');
    ChangesAre(lines, fmt, target);
    RenderExact(lines, RowMap(RowsFrom(lines, fmt, target, 0)), adopt);
    RewrittenLines(text, fmt, target, adopt);
  }

  // ------------------------------------------------------------------ the check afterwards

  /** A uri that is left on the other scheme. */
  predicate Missed(u: string, target: Scheme) {
    match target
    case Https => |u| >= 7 && u[..7] == "http://"
    case Http => |u| >= 8 && u[..8] == "https://"
  }

  /** The first uri, in file order, that is left on the other scheme. */
  predicate FirstMissed(es: seq<Entry>, u: string, target: Scheme) {
    exists i :: 0 <= i < |es| && (forall j :: 0 <= j < i ==> NoneMissed(es[j].uris, target)) && FirstMissedIn(es[i].uris, u, target)
  }

  predicate NoneMissed(uris: seq<string>, target: Scheme) {
    forall k :: 0 <= k < |uris| ==> !Missed(uris[k], target)
  }

  predicate FirstMissedIn(uris: seq<string>, u: string, target: Scheme) {
    exists k :: 0 <= k < |uris| && uris[k] == u && Missed(u, target) && NoneMissed(uris[..k], target)
  }

  lemma MissedIs(u: string, target: Scheme)
    ensures Missed(u, target) <==> !OnTarget(u, target)
  {
    assert "http" + "://" == "http://" && "https" + "://" == "https://";
    if StartsWith(u, "https://") {
      assert u[..8][4] == 's' && u[..7][4] == u[4];
    }
  }

  lemma {:induction false} FirstOffExact(uris: seq<string>, target: Scheme)
    ensures match FirstOff(uris, target) case None => NoneMissed(uris, target) case Some(u) => FirstMissedIn(uris, u, target)
  {
    hide OnTarget; hide Missed;
    if uris != [] {
      MissedIs(uris[0], target);
      FirstOffExact(uris[1..], target);
      var r := FirstOff(uris[1..], target);
      if OnTarget(uris[0], target) && r.Some? {
        var k :| 0 <= k < |uris[1..]| && uris[1..][k] == r.value && Missed(r.value, target) && NoneMissed(uris[1..][..k], target);
        assert uris[k + 1] == r.value;
        assert uris[..k + 1] == [uris[0]] + uris[1..][..k];
        assert NoneMissed(uris[..k + 1], target);
      } else if !OnTarget(uris[0], target) {
        assert uris[0] == uris[0] && NoneMissed(uris[..0], target);
      }
    }
  }

  lemma {:induction false} FirstEntryExact(es: seq<Entry>, target: Scheme)
    ensures match FirstOffEntry(es, target)
      case None => forall i :: 0 <= i < |es| ==> NoneMissed(es[i].uris, target)
      case Some(u) => FirstMissed(es, u, target)
  {
    hide FirstOff; hide NoneMissed; hide FirstMissedIn;
    if es != [] {
      FirstOffExact(es[0].uris, target);
      FirstEntryExact(es[1..], target);
      var r := FirstOffEntry(es[1..], target);
      if FirstOff(es[0].uris, target).Some? {
        assert FirstMissedIn(es[0].uris, FirstOff(es[0].uris, target).value, target);
      } else if r.Some? {
        var i :| 0 <= i < |es[1..]| && (forall j :: 0 <= j < i ==> NoneMissed(es[1..][j].uris, target)) && FirstMissedIn(es[1..][i].uris, r.value, target);
        assert es[i + 1] == es[1..][i];
        assert forall j :: 1 <= j < i + 1 ==> es[j] == es[1..][j - 1];
      } else {
        assert forall j :: 1 <= j < |es| ==> es[j] == es[1..][j - 1];
      }
    }
  }

  /** The check of a written file: it parses, to as many entries as before, none of their uris left
      on the other scheme; otherwise the first of these that fails, and of the uris the first. */
  lemma VerdictExact(text: string, fmt: Format, target: Scheme, expected: nat)
    ensures match Verdict(text, fmt, target, expected)
      case None => Parse(text, fmt).Ok? && |Parse(text, fmt).value| == expected &&
        forall i :: 0 <= i < expected ==> NoneMissed(Parse(text, fmt).value[i].uris, target)
      case Some(ReparseFailed(e)) => Parse(text, fmt) == Err(e)
      case Some(CountChanged(n, m)) => Parse(text, fmt).Ok? && n == expected && m == |Parse(text, fmt).value| && n != m
      case Some(OffTarget(u)) =>
        Parse(text, fmt).Ok? && |Parse(text, fmt).value| == expected && FirstMissed(Parse(text, fmt).value, u, target)
  {
    hide Parse; hide FirstOffEntry; hide NoneMissed; hide FirstMissed;
    if Parse(text, fmt).Ok? {
      FirstEntryExact(Parse(text, fmt).value, target);
    }
  }
}
