/** The Prometheus text exposition (format 0.0.4) of the stored metrics, and a reader for it. */
module PrometheusText {
  import opened Outcomes
  import opened TextOrder
  import opened CanonicalArguments
  import opened MetricStore

  // ---- label values ------------------------------------------------------------------------

  /** Replaces every occurrence of one character, as `str.replace` does. */
  function Replace(s: string, c: char, by0: string): string {
    if s == "" then "" else (if s[0] == c then by0 else [s[0]]) + Replace(s[1..], c, by0)
  }

  /** The exporter's three replacements, in its order. */
  function EscapeLabel(value: string): string {
    Replace(Replace(Replace(value, '\\', "\\\\"), '\n', "\\n"), '"', "\\\"")
  }

  function EscapeOne(c: char): string {
    if c == '\\' then "\\\\" else if c == '\n' then "\\n" else if c == '"' then "\\\"" else [c]
  }

  function EscapeOnce(value: string): string {
    if value == "" then "" else EscapeOne(value[0]) + EscapeOnce(value[1..])
  }

  lemma {:induction false} ReplaceConcat(a: string, b: string, c: char, by0: string)
    ensures Replace(a + b, c, by0) == Replace(a, c, by0) + Replace(b, c, by0)
  {
    if a == "" {
      assert a + b == b;
    } else {
      assert (a + b)[1..] == a[1..] + b;
      ReplaceConcat(a[1..], b, c, by0);
    }
  }

  lemma ReplaceOne(x: char, c: char, by0: string)
    ensures Replace([x], c, by0) == if x == c then by0 else [x]
  {
    assert [x][1..] == "";
  }

  lemma ReplaceTwo(x: char, y: char, c: char, by0: string)
    requires x != c && y != c
    ensures Replace([x, y], c, by0) == [x, y]
  {
    assert [x, y][1..] == [y];
    ReplaceOne(y, c, by0);
  }

  lemma ReplaceShort(c: char)
    ensures EscapeLabel([c]) == EscapeOne(c)
  {
    ReplaceOne(c, '\\', "\\\\");
    if c == '\\' {
      ReplaceTwo('\\', '\\', '\n', "\\n");
      ReplaceTwo('\\', '\\', '"', "\\\"");
      assert "\\\\" == ['\\', '\\'];
    } else {
      ReplaceOne(c, '\n', "\\n");
      if c == '\n' {
        ReplaceTwo('\\', 'n', '"', "\\\"");
        assert "\\n" == ['\\', 'n'];
      } else {
        ReplaceOne(c, '"', "\\\"");
      }
    }
  }

  /** The order of the three replacements is right: no escape introduced by one is seen by the next. */
  lemma {:induction false} ReplacementsAreOnePass(value: string)
    ensures EscapeLabel(value) == EscapeOnce(value)
  {
    if value != "" {
      var head, tail := [value[0]], value[1..];
      assert value == head + tail;
      var head1, tail1 := Replace(head, '\\', "\\\\"), Replace(tail, '\\', "\\\\");
      ReplaceConcat(head, tail, '\\', "\\\\");
      ReplaceConcat(head1, tail1, '\n', "\\n");
      ReplaceConcat(Replace(head1, '\n', "\\n"), Replace(tail1, '\n', "\\n"), '"', "\\\"");
      ReplaceShort(value[0]);
      ReplacementsAreOnePass(tail);
    }
  }

  /** Reads one, possibly escaped, character; answers it and how many characters it took. */
  function ReadOne(t: string): (r: Option<(char, nat)>)
    ensures r.Some? ==> 1 <= r.value.1 <= |t|
  {
    if t == "" || t[0] == '"' || t[0] == '\n' then None
    else if t[0] != '\\' then Some((t[0], 1))
    else if |t| < 2 then None
    else if t[1] == 'n' then Some(('\n', 2))
    else if t[1] == '\\' || t[1] == '"' then Some((t[1], 2))
    else None
  }

  /** Reads an escaped value up to its closing quote; answers it and what follows. */
  function ReadValue(t: string): (r: Option<(string, string)>)
    ensures r.Some? ==> |r.value.1| < |t|
  {
    if t == "" then None
    else if t[0] == '"' then Some(("", t[1..]))
    else
      match ReadOne(t)
      case None => None
      case Some((c, n)) =>
        match ReadValue(t[n..])
        case None => None
        case Some((v, rest)) => Some(([c] + v, rest))
  }

  lemma ReadsOne(c: char, rest: string)
    ensures EscapeOne(c) != "" && EscapeOne(c)[0] != '"'
    ensures ReadOne(EscapeOne(c) + rest) == Some((c, |EscapeOne(c)|))
  {
  }

  lemma {:induction false} ReadEscapedValue(value: string, rest: string)
    ensures ReadValue(EscapeOnce(value) + "\"" + rest) == Some((value, rest))
  {
    var t := EscapeOnce(value) + "\"" + rest;
    if value == "" {
      assert t[1..] == rest;
    } else {
      var one, tail := EscapeOne(value[0]), EscapeOnce(value[1..]) + "\"" + rest;
      assert t == one + tail;
      ReadsOne(value[0], tail);
      assert t[|one|..] == tail;
      ReadEscapedValue(value[1..], rest);
      assert value == [value[0]] + value[1..];
    }
  }

  // ---- items and lines ---------------------------------------------------------------------

  datatype Item =
    | Help(name: string, text: string)
    | Kind(name: string, kind: string)
    | Sample(name: string, labels: seq<Entry>, value: string)

  predicate NameChar(c: char) {
    'a' <= c <= 'z' || 'A' <= c <= 'Z' || '0' <= c <= '9' || c == '_' || c == ':'
  }

  predicate IsName(s: string) {
    s != "" && forall i :: 0 <= i < |s| ==> NameChar(s[i])
  }

  predicate OneLine(s: string) {
    forall i :: 0 <= i < |s| ==> s[i] != '\n'
  }

  /** Names are identifiers; help texts, kinds and numbers hold no line feed. Label values are free. */
  predicate WellFormed(item: Item) {
    match item
    case Help(name, text) => IsName(name) && OneLine(text)
    case Kind(name, kind) => IsName(name) && OneLine(kind)
    case Sample(name, labels, value) =>
      IsName(name) && OneLine(value) && forall i :: 0 <= i < |labels| ==> IsName(labels[i].key)
  }

  function LabelText(e: Entry): string {
    e.key + "=\"" + EscapeLabel(e.value) + "\""
  }

  function LabelTail(labels: seq<Entry>): string {
    if labels == [] then "}" else "," + (LabelText(labels[0]) + LabelTail(labels[1..]))
  }

  function Suffix(labels: seq<Entry>): string {
    if labels == [] then "" else "{" + (LabelText(labels[0]) + LabelTail(labels[1..]))
  }

  const HELP := "# HELP "
  const TYPE := "# TYPE "

  function Line(item: Item): string {
    match item
    case Help(name, text) => HELP + name + " " + text
    case Kind(name, kind) => TYPE + name + " " + kind
    case Sample(name, labels, value) => name + Suffix(labels) + " " + value
  }

  function LinesOf(items: seq<Item>): string {
    if items == [] then "" else Line(items[0]) + "\n" + LinesOf(items[1..])
  }

  /** Joined by line feeds and closed by one, even when there is no line. */
  function Text(items: seq<Item>): string {
    if items == [] then "\n" else LinesOf(items)
  }

  // ---- reading -----------------------------------------------------------------------------

  function NameLength(t: string): (n: nat)
    ensures n <= |t|
  {
    if t == "" || !NameChar(t[0]) then 0 else 1 + NameLength(t[1..])
  }

  function ReadLabel(t: string): (r: Option<(Entry, string)>)
    ensures r.Some? ==> |r.value.1| < |t|
  {
    var n := NameLength(t);
    if n == 0 || |t| < n + 2 || t[n] != '=' || t[n + 1] != '"' then None
    else
      match ReadValue(t[n + 2..])
      case None => None
      case Some((v, rest)) => Some((Entry(t[..n], v), rest))
  }

  function ReadLabels(t: string): Option<(seq<Entry>, string)>
    decreases |t|
  {
    if t == "" then None
    else if t[0] == '}' then Some(([], t[1..]))
    else if t[0] != ',' then None
    else
      match ReadLabel(t[1..])
      case None => None
      case Some((e, rest)) =>
        match ReadLabels(rest)
        case None => None
        case Some((more, end)) => Some(([e] + more, end))
  }

  function ReadHeader(t: string): Option<(string, string)> {
    var n := NameLength(t);
    if n == 0 || |t| <= n || t[n] != ' ' then None else Some((t[..n], t[n + 1..]))
  }

  function ReadSample(t: string): Option<Item> {
    var n := NameLength(t);
    if n == 0 || |t| <= n then None
    else if t[n] == ' ' then Some(Sample(t[..n], [], t[n + 1..]))
    else if t[n] != '{' then None
    else
      match ReadLabel(t[n + 1..])
      case None => None
      case Some((e, afterFirst)) =>
        match ReadLabels(afterFirst)
        case None => None
        case Some((more, rest)) =>
          if rest == "" || rest[0] != ' ' then None else Some(Sample(t[..n], [e] + more, rest[1..]))
  }

  function ReadLine(t: string): Option<Item> {
    if HELP <= t then
      (match ReadHeader(t[7..]) case None => None case Some((name, text)) => Some(Help(name, text)))
    else if TYPE <= t then
      (match ReadHeader(t[7..]) case None => None case Some((name, kind)) => Some(Kind(name, kind)))
    else ReadSample(t)
  }

  function LineLength(t: string): (n: nat)
    ensures n <= |t|
  {
    if t == "" || t[0] == '\n' then 0 else 1 + LineLength(t[1..])
  }

  /** Every line ends in a line feed; blank lines mean nothing. */
  function ReadText(t: string): Option<seq<Item>>
    decreases |t|
  {
    if t == "" then Some([])
    else
      var n := LineLength(t);
      if n == |t| then None
      else
        match ReadText(t[n + 1..])
        case None => None
        case Some(items) =>
          if n == 0 then Some(items)
          else
            match ReadLine(t[..n])
            case None => None
            case Some(item) => Some([item] + items)
  }

  // ---- round trip --------------------------------------------------------------------------

  lemma {:induction false} NameEnds(name: string, rest: string)
    requires forall i :: 0 <= i < |name| ==> NameChar(name[i])
    requires rest != "" && !NameChar(rest[0])
    ensures NameLength(name + rest) == |name|
  {
    if name == "" {
      assert name + rest == rest;
    } else {
      assert (name + rest)[1..] == name[1..] + rest;
      NameEnds(name[1..], rest);
    }
  }

  lemma {:induction false} LineEnds(line: string, rest: string)
    requires OneLine(line)
    ensures LineLength(line + "\n" + rest) == |line|
  {
    var t := line + "\n" + rest;
    if line != "" {
      assert t[1..] == line[1..] + "\n" + rest;
      LineEnds(line[1..], rest);
    }
  }

  lemma ReadsLabel(e: Entry, rest: string)
    requires IsName(e.key)
    ensures ReadLabel(LabelText(e) + rest) == Some((e, rest))
  {
    var t := LabelText(e) + rest;
    ReplacementsAreOnePass(e.value);
    var value := EscapeOnce(e.value) + "\"" + rest;
    assert t == e.key + ("=\"" + value);
    NameEnds(e.key, "=\"" + value);
    assert t[|e.key| + 2..] == value;
    ReadEscapedValue(e.value, rest);
  }

  lemma ReadsOneMoreLabel(e: Entry, tail: string, more: seq<Entry>, rest: string)
    requires IsName(e.key) && ReadLabels(tail) == Some((more, rest))
    ensures ReadLabels("," + (LabelText(e) + tail)) == Some(([e] + more, rest))
  {
    var t := "," + (LabelText(e) + tail);
    ReadsLabel(e, tail);
    assert t[1..] == LabelText(e) + tail;
  }

  lemma {:induction false} ReadsLabels(labels: seq<Entry>, rest: string)
    requires forall i :: 0 <= i < |labels| ==> IsName(labels[i].key)
    ensures ReadLabels(LabelTail(labels) + rest) == Some((labels, rest))
  {
    var t := LabelTail(labels) + rest;
    if labels == [] {
      assert t[1..] == rest;
    } else {
      var tail := LabelTail(labels[1..]) + rest;
      assert t == "," + (LabelText(labels[0]) + tail);
      ReadsLabels(labels[1..], rest);
      ReadsOneMoreLabel(labels[0], tail, labels[1..], rest);
      assert labels == [labels[0]] + labels[1..];
    }
  }

  lemma ReadsBareSample(name: string, value: string)
    requires IsName(name)
    ensures ReadSample(name + (" " + value)) == Some(Sample(name, [], value))
  {
    var t := name + (" " + value);
    NameEnds(name, " " + value);
    assert t[..|name|] == name && t[|name| + 1..] == value;
  }

  lemma ReadsBracedSample(name: string, body: string, e: Entry, afterFirst: string, more: seq<Entry>, rest: string)
    requires IsName(name) && ReadLabel(body) == Some((e, afterFirst)) && ReadLabels(afterFirst) == Some((more, rest))
    requires rest != "" && rest[0] == ' '
    ensures ReadSample(name + ("{" + body)) == Some(Sample(name, [e] + more, rest[1..]))
  {
    var t := name + ("{" + body);
    NameEnds(name, "{" + body);
    assert t[..|name|] == name && t[|name| + 1..] == body;
  }

  lemma ReadsLabelledSample(name: string, e: Entry, more: seq<Entry>, value: string)
    requires IsName(name) && IsName(e.key) && forall i :: 0 <= i < |more| ==> IsName(more[i].key)
    ensures ReadSample(name + ("{" + (LabelText(e) + (LabelTail(more) + (" " + value)))))
            == Some(Sample(name, [e] + more, value))
  {
    var tail := LabelTail(more) + (" " + value);
    ReadsLabel(e, tail);
    ReadsLabels(more, " " + value);
    ReadsBracedSample(name, LabelText(e) + tail, e, tail, more, " " + value);
    assert (" " + value)[1..] == value;
  }

  lemma ReadsSample(name: string, labels: seq<Entry>, value: string)
    requires WellFormed(Sample(name, labels, value))
    ensures ReadSample(Line(Sample(name, labels, value))) == Some(Sample(name, labels, value))
  {
    var t := Line(Sample(name, labels, value));
    if labels == [] {
      assert t == name + (" " + value);
      ReadsBareSample(name, value);
    } else {
      var e, more := labels[0], labels[1..];
      assert t == name + ("{" + (LabelText(e) + (LabelTail(more) + (" " + value))));
      ReadsLabelledSample(name, e, more, value);
      assert labels == [e] + more;
    }
  }

  lemma ReadsHeader(name: string, text: string)
    requires IsName(name)
    ensures ReadHeader(name + " " + text) == Some((name, text))
  {
    var t := name + " " + text;
    assert t == name + (" " + text);
    NameEnds(name, " " + text);
    assert t[..|name|] == name && t[|name| + 1..] == text;
  }

  lemma ReadsLine(item: Item)
    requires WellFormed(item)
    ensures ReadLine(Line(item)) == Some(item) && Line(item) != ""
  {
    match item
    case Help(name, text) =>
      assert Line(item)[7..] == name + " " + text;
      ReadsHeader(name, text);
    case Kind(name, kind) =>
      assert Line(item)[7..] == name + " " + kind;
      assert Line(item)[2] == 'T';
      ReadsHeader(name, kind);
    case Sample(name, labels, value) =>
      assert NameChar(Line(item)[0]) && HELP[0] == TYPE[0] == '#';
      ReadsSample(name, labels, value);
  }

  lemma {:induction false} EscapedIsOneLine(value: string)
    ensures OneLine(EscapeOnce(value))
  {
    if value != "" { EscapedIsOneLine(value[1..]); }
  }

  lemma OneLineConcat(a: string, b: string)
    requires OneLine(a) && OneLine(b)
    ensures OneLine(a + b)
  {
  }

  lemma LabelTextIsOneLine(e: Entry)
    requires IsName(e.key)
    ensures OneLine(LabelText(e))
  {
    ReplacementsAreOnePass(e.value);
    EscapedIsOneLine(e.value);
    assert OneLine(e.key);
  }

  lemma {:induction false} LabelTailIsOneLine(labels: seq<Entry>)
    requires forall i :: 0 <= i < |labels| ==> IsName(labels[i].key)
    ensures OneLine(LabelTail(labels))
  {
    if labels != [] {
      LabelTextIsOneLine(labels[0]);
      LabelTailIsOneLine(labels[1..]);
      OneLineConcat(LabelText(labels[0]), LabelTail(labels[1..]));
      OneLineConcat(",", LabelText(labels[0]) + LabelTail(labels[1..]));
    }
  }

  lemma LineIsOneLine(item: Item)
    requires WellFormed(item)
    ensures OneLine(Line(item))
  {
    assert OneLine(item.name);
    match item
    case Help(name, text) => OneLineConcat(HELP + name + " ", text);
    case Kind(name, kind) => OneLineConcat(TYPE + name + " ", kind);
    case Sample(name, labels, value) =>
      if labels != [] {
        LabelTextIsOneLine(labels[0]);
        LabelTailIsOneLine(labels[1..]);
        OneLineConcat(LabelText(labels[0]), LabelTail(labels[1..]));
        OneLineConcat("{", LabelText(labels[0]) + LabelTail(labels[1..]));
      }
      OneLineConcat(name, Suffix(labels));
      OneLineConcat(name + Suffix(labels) + " ", value);
  }

  lemma ReadsOneMoreLine(item: Item, rest: string, items: seq<Item>)
    requires WellFormed(item) && ReadText(rest) == Some(items)
    ensures ReadText(Line(item) + "\n" + rest) == Some([item] + items)
  {
    var line, t := Line(item), Line(item) + "\n" + rest;
    ReadsLine(item);
    LineIsOneLine(item);
    LineEnds(line, rest);
    assert t[..|line|] == line && t[|line| + 1..] == rest;
  }

  lemma {:induction false} LinesReadBack(items: seq<Item>)
    requires forall i :: 0 <= i < |items| ==> WellFormed(items[i])
    ensures ReadText(LinesOf(items)) == Some(items)
  {
    if items != [] {
      LinesReadBack(items[1..]);
      ReadsOneMoreLine(items[0], LinesOf(items[1..]), items[1..]);
      assert items == [items[0]] + items[1..];
    }
  }

  lemma TextRoundTrip(items: seq<Item>)
    requires forall i :: 0 <= i < |items| ==> WellFormed(items[i])
    ensures ReadText(Text(items)) == Some(items)
  {
    if items == [] {
      assert "\n"[1..] == "";
    } else {
      LinesReadBack(items);
    }
  }

  // ---- what a reader can get ---------------------------------------------------------------

  lemma {:induction false} NameRead(t: string)
    ensures forall i :: 0 <= i < NameLength(t) ==> NameChar(t[i])
  {
    if t != "" && NameChar(t[0]) {
      NameRead(t[1..]);
      forall i | 0 < i < NameLength(t) ensures NameChar(t[i]) { assert t[i] == t[1..][i - 1]; }
    }
  }

  lemma {:induction false} ValueRest(t: string)
    requires OneLine(t) && ReadValue(t).Some?
    ensures OneLine(ReadValue(t).value.1)
  {
    if t[0] != '"' { ValueRest(t[ReadOne(t).value.1..]); }
  }

  lemma LabelRead(t: string)
    requires OneLine(t) && ReadLabel(t).Some?
    ensures IsName(ReadLabel(t).value.0.key) && OneLine(ReadLabel(t).value.1)
  {
    NameRead(t);
    ValueRest(t[NameLength(t) + 2..]);
  }

  lemma {:induction false} LabelsRead(t: string)
    requires OneLine(t) && ReadLabels(t).Some?
    ensures forall i :: 0 <= i < |ReadLabels(t).value.0| ==> IsName(ReadLabels(t).value.0[i].key)
    ensures OneLine(ReadLabels(t).value.1)
    decreases |t|
  {
    if t[0] == ',' {
      LabelRead(t[1..]);
      LabelsRead(ReadLabel(t[1..]).value.1);
    }
  }

  lemma HeaderRead(t: string)
    requires OneLine(t) && ReadHeader(t).Some?
    ensures IsName(ReadHeader(t).value.0) && OneLine(ReadHeader(t).value.1)
  {
    NameRead(t);
  }

  lemma SampleRead(t: string)
    requires OneLine(t) && ReadSample(t).Some?
    ensures WellFormed(ReadSample(t).value)
  {
    NameRead(t);
    var n := NameLength(t);
    if t[n] == '{' {
      LabelRead(t[n + 1..]);
      LabelsRead(ReadLabel(t[n + 1..]).value.1);
    }
  }

  lemma LineRead(t: string)
    requires OneLine(t) && ReadLine(t).Some?
    ensures WellFormed(ReadLine(t).value)
  {
    if HELP <= t || TYPE <= t { HeaderRead(t[7..]); } else { SampleRead(t); }
  }

  lemma {:induction false} LineStops(t: string)
    ensures OneLine(t[..LineLength(t)])
  {
    if t != "" && t[0] != '\n' {
      LineStops(t[1..]);
      assert t[..LineLength(t)] == [t[0]] + t[1..][..LineLength(t[1..])];
    }
  }

  /** Whatever the text, only well-formed items are read from it. */
  lemma {:induction false} TextRead(t: string)
    requires ReadText(t).Some?
    ensures forall i :: 0 <= i < |ReadText(t).value| ==> WellFormed(ReadText(t).value[i])
    decreases |t|
  {
    if t != "" {
      var n := LineLength(t);
      TextRead(t[n + 1..]);
      LineStops(t);
      if n > 0 { LineRead(t[..n]); }
    }
  }

  /** The exported text reads back item by item exactly when the items are well-formed, whatever the
    * label values hold.
    */
  lemma ReadsBackExactly(items: seq<Item>)
    ensures ReadText(Text(items)) == Some(items) <==> forall i :: 0 <= i < |items| ==> WellFormed(items[i])
  {
    if ReadText(Text(items)) == Some(items) {
      TextRead(Text(items));
    } else if forall i :: 0 <= i < |items| ==> WellFormed(items[i]) {
      TextRoundTrip(items);
    }
  }

  /** Names are written as they are, so a label name that spells a whole label and the start of the next
    * gives the line of two labels.
    */
  lemma LabelNamesCollide(name: string, first: Entry, second: Entry, value: string)
    ensures var spelled := Entry(LabelText(first) + "," + second.key, second.value);
            Line(Sample(name, [spelled], value)) == Line(Sample(name, [first, second], value))
  {
    var spelled := Entry(LabelText(first) + "," + second.key, second.value);
    OneLabelTail(second);
    OneLabelTail(spelled);
    assert [first, second][1..] == [second] && [spelled][1..] == [];
    assert LabelText(spelled) == LabelText(first) + ("," + LabelText(second));
    assert LabelText(spelled) + "}" == LabelText(first) + LabelTail([second]);
  }

  lemma OneLabelTail(e: Entry)
    ensures LabelTail([e]) == "," + LabelText(e) + "}"
  {
    assert [e][1..] == [];
  }

  /** The three escapes of a label value, and nothing else. */
  lemma LabelEscapesAreSpelled(c: char)
    ensures EscapeLabel("\\") == "\\\\" && EscapeLabel("\n") == "\\n" && EscapeLabel("\"") == "\\\""
    ensures c != '\\' && c != '\n' && c != '"' ==> EscapeLabel([c]) == [c]
  {
    ReplaceShort('\\');
    ReplaceShort('\n');
    ReplaceShort('"');
    ReplaceShort(c);
  }

  /** The lines of the text format, spelled out, and how they follow one another. */
  lemma LinesAreSpelled(name: string, text: string, a: Entry, b: Entry, value: string, one: Item, two: Item)
    ensures Line(Help(name, text)) == "# HELP " + name + " " + text
    ensures Line(Kind(name, "gauge")) == "# TYPE " + name + " " + "gauge"
    ensures Line(Sample(name, [], value)) == name + "" + " " + value
    ensures Line(Sample(name, [a], value))
            == name + ("{" + (a.key + "=\"" + EscapeLabel(a.value) + "\"" + "}")) + " " + value
    ensures Line(Sample(name, [a, b], value))
            == name + ("{" + (a.key + "=\"" + EscapeLabel(a.value) + "\""
                              + ("," + (b.key + "=\"" + EscapeLabel(b.value) + "\"" + "}")))) + " " + value
    ensures Text([]) == "\n" && Text([one]) == Line(one) + "\n"
            && Text([one, two]) == Line(one) + "\n" + (Line(two) + "\n")
  {
    assert [a, b][1..] == [b] && [a][1..] == [] && [b][1..] == [];
    assert [one, two][1..] == [two] && [one][1..] == [] && [two][1..] == [];
    assert LabelTail([b]) == "," + (LabelText(b) + "}");
    assert LinesOf([two]) == Line(two) + "\n" && LinesOf([one]) == Line(one) + "\n";
  }
}
