/** The compact JSON object that stands for a task's arguments: keys in code-point order, no blanks,
  * strings escaped as section 7 of RFC 8259 asks. A listing of entries in any order is sorted first.
  */
module CanonicalArguments {
  import opened Outcomes
  import opened TextOrder

  datatype Entry = Entry(key: string, value: string)

  ghost predicate DistinctKeys(s: seq<Entry>) {
    forall i, j :: 0 <= i < j < |s| ==> s[i].key != s[j].key
  }

  /** A mapping written down in some insertion order. */
  type Arguments = s: seq<Entry> | DistinctKeys(s) witness []

  function AsMap(s: seq<Entry>): map<string, string> {
    if s == [] then map[] else AsMap(s[1..])[s[0].key := s[0].value]
  }

  lemma {:induction false} AsMapKeys(s: seq<Entry>, k: string)
    ensures k in AsMap(s) <==> exists i :: 0 <= i < |s| && s[i].key == k
  {
    if s != [] {
      AsMapKeys(s[1..], k);
      if k in AsMap(s[1..]) {
        var i :| 0 <= i < |s[1..]| && s[1..][i].key == k;
        assert s[i + 1].key == k;
      }
      if i :| 0 < i < |s| && s[i].key == k {
        assert s[1..][i - 1].key == k;
      }
    }
  }

  lemma HeadListed(s: seq<Entry>)
    ensures AsMap(s) == map[] <==> s == []
  {
    assert s != [] ==> s[0].key in AsMap(s);
  }

  // ---- sorting -----------------------------------------------------------------------------

  ghost predicate Ascending(s: seq<Entry>) {
    forall i, j :: 0 <= i < j < |s| ==> Less(s[i].key, s[j].key)
  }

  function Insert(e: Entry, s: seq<Entry>): seq<Entry> {
    if s == [] || Less(e.key, s[0].key) then [e] + s else [s[0]] + Insert(e, s[1..])
  }

  function Sort(s: seq<Entry>): seq<Entry> {
    if s == [] then [] else Insert(s[0], Sort(s[1..]))
  }

  lemma {:induction false} InsertKeepsOrder(e: Entry, s: seq<Entry>)
    requires Ascending(s) && e.key !in AsMap(s)
    ensures Ascending(Insert(e, s))
    ensures AsMap(Insert(e, s)) == AsMap(s)[e.key := e.value]
  {
    if s == [] {
    } else if Less(e.key, s[0].key) {
      forall j | 0 <= j < |s| ensures Less(e.key, s[j].key) {
        if j > 0 { LessTransitive(e.key, s[0].key, s[j].key); }
      }
      assert ([e] + s)[1..] == s;
    } else {
      LessTotal(e.key, s[0].key);
      var tail := Insert(e, s[1..]);
      assert e.key !in AsMap(s[1..]);
      InsertKeepsOrder(e, s[1..]);
      assert ([s[0]] + tail)[1..] == tail;
      forall j | 0 <= j < |tail| ensures Less(s[0].key, tail[j].key) {
        assert tail[j].key in AsMap(tail) by { AsMapKeys(tail, tail[j].key); }
        if tail[j].key != e.key {
          AsMapKeys(s[1..], tail[j].key);
          var i :| 0 <= i < |s[1..]| && s[1..][i].key == tail[j].key;
          assert Less(s[0].key, s[i + 1].key);
        }
      }
    }
  }

  lemma {:induction false} SortSorts(s: Arguments)
    ensures Ascending(Sort(s)) && AsMap(Sort(s)) == AsMap(s)
  {
    if s != [] {
      SortSorts(s[1..]);
      AsMapKeys(s[1..], s[0].key);
      InsertKeepsOrder(s[0], Sort(s[1..]));
    }
  }

  /** A strictly ascending listing is determined by the mapping it lists. */
  lemma {:induction false} AscendingUnique(a: seq<Entry>, b: seq<Entry>)
    requires Ascending(a) && Ascending(b) && AsMap(a) == AsMap(b)
    ensures a == b
  {
    if a == [] {
      HeadListed(b);
    } else {
      assert a[0].key in AsMap(b) && b != [] && b[0].key in AsMap(a);
      AsMapKeys(a, b[0].key);
      AsMapKeys(b, a[0].key);
      var i :| 0 <= i < |a| && a[i].key == b[0].key;
      var j :| 0 <= j < |b| && b[j].key == a[0].key;
      if i > 0 && j > 0 {
        LessAsymmetric(a[0].key, a[i].key);
        assert false;
      }
      HeadNotInTail(a);
      HeadNotInTail(b);
      assert AsMap(a[1..]) == AsMap(a) - {a[0].key};
      assert AsMap(b[1..]) == AsMap(b) - {b[0].key};
      AscendingUnique(a[1..], b[1..]);
      assert a == [a[0]] + a[1..] && b == [b[0]] + b[1..];
    }
  }

  lemma HeadNotInTail(s: seq<Entry>)
    requires s != [] && Ascending(s)
    ensures s[0].key !in AsMap(s[1..])
  {
    AsMapKeys(s[1..], s[0].key);
    if i :| 0 <= i < |s[1..]| && s[1..][i].key == s[0].key {
      LessAsymmetric(s[0].key, s[i + 1].key);
    }
  }

  // ---- strings -----------------------------------------------------------------------------

  const HEX := "0123456789abcdef"

  function HexValue(c: char): (r: Option<int>)
    ensures r.Some? ==> 0 <= r.value < 16
  {
    if '0' <= c <= '9' then Some(c as int - '0' as int)
    else if 'a' <= c <= 'f' then Some(c as int - 'a' as int + 10)
    else None
  }

  function EscapeChar(c: char): string {
    if c == '"' then "\\\""
    else if c == '\\' then "\\\\"
    else if c == '\n' then "\\n"
    else if c == '\r' then "\\r"
    else if c == '\t' then "\\t"
    else if c == '\U{0008}' then "\\b"
    else if c == '\U{000C}' then "\\f"
    else if c < ' ' then "\\u00" + [HEX[c as int / 16], HEX[c as int % 16]]
    else [c]
  }

  function Escape(s: string): string {
    if s == "" then "" else EscapeChar(s[0]) + Escape(s[1..])
  }

  /** Reads one, possibly escaped, character; answers it and how many characters it took. */
  function ReadChar(t: string): (r: Option<(char, nat)>)
    ensures r.Some? ==> 1 <= r.value.1 <= |t|
  {
    if t == "" || t[0] == '"' || t[0] < ' ' then None
    else if t[0] != '\\' then Some((t[0], 1))
    else if |t| < 2 then None
    else if t[1] == '"' then Some(('"', 2))
    else if t[1] == '\\' then Some(('\\', 2))
    else if t[1] == 'n' then Some(('\n', 2))
    else if t[1] == 'r' then Some(('\r', 2))
    else if t[1] == 't' then Some(('\t', 2))
    else if t[1] == 'b' then Some(('\U{0008}', 2))
    else if t[1] == 'f' then Some(('\U{000C}', 2))
    else if |t| >= 6 && t[1] == 'u' && t[2] == '0' && t[3] == '0' && HexValue(t[4]).Some? && HexValue(t[5]).Some? then
      Some(((16 * HexValue(t[4]).value + HexValue(t[5]).value) as char, 6))
    else None
  }

  /** Reads characters up to the closing quote; answers the string and what follows the quote. */
  function ReadString(t: string): (r: Option<(string, string)>)
    ensures r.Some? ==> |r.value.1| < |t|
  {
    if t == "" then None
    else if t[0] == '"' then Some(("", t[1..]))
    else
      match ReadChar(t)
      case None => None
      case Some((c, n)) =>
        match ReadString(t[n..])
        case None => None
        case Some((s, rest)) => Some(([c] + s, rest))
  }

  lemma ReadEscapedChar(c: char, rest: string)
    ensures EscapeChar(c) != "" && EscapeChar(c)[0] != '"'
    ensures ReadChar(EscapeChar(c) + rest) == Some((c, |EscapeChar(c)|))
  {
    var t := EscapeChar(c) + rest;
    if c < ' ' && c !in {'\n', '\r', '\t', '\U{0008}', '\U{000C}'} {
      assert t[4] == HEX[c as int / 16] && t[5] == HEX[c as int % 16];
    }
  }

  lemma {:induction false} ReadEscaped(s: string, rest: string)
    ensures ReadString(Escape(s) + "\"" + rest) == Some((s, rest))
  {
    var t := Escape(s) + "\"" + rest;
    if s == "" {
      assert t[1..] == rest;
    } else {
      var e, tail := EscapeChar(s[0]), Escape(s[1..]) + "\"" + rest;
      assert t == e + tail;
      ReadEscapedChar(s[0], tail);
      assert t[|e|..] == tail;
      ReadEscaped(s[1..], rest);
      assert s == [s[0]] + s[1..];
    }
  }

  // ---- objects -----------------------------------------------------------------------------

  function Member(e: Entry): string {
    "\"" + Escape(e.key) + "\":\"" + Escape(e.value) + "\""
  }

  /** What follows an entry: the closing brace, or a comma and the next entry. */
  function Tail(s: seq<Entry>): string {
    if s == [] then "}" else "," + (Member(s[0]) + Tail(s[1..]))
  }

  function Render(s: seq<Entry>): string {
    "{" + if s == [] then "}" else Member(s[0]) + Tail(s[1..])
  }

  function ReadMember(t: string): (r: Option<(Entry, string)>)
    ensures r.Some? ==> |r.value.1| < |t|
  {
    if t == "" || t[0] != '"' then None
    else
      match ReadString(t[1..])
      case None => None
      case Some((k, afterKey)) =>
        if |afterKey| < 2 || afterKey[0] != ':' || afterKey[1] != '"' then None
        else
          match ReadString(afterKey[2..])
          case None => None
          case Some((v, rest)) => Some((Entry(k, v), rest))
  }

  function ReadTail(t: string): Option<seq<Entry>>
    decreases |t|
  {
    if t == "}" then Some([])
    else if t == "" || t[0] != ',' then None
    else
      match ReadMember(t[1..])
      case None => None
      case Some((e, rest)) =>
        match ReadTail(rest)
        case None => None
        case Some(more) => Some([e] + more)
  }

  /** A reader of the objects this encoder writes. */
  function ReadObject(t: string): Option<seq<Entry>> {
    if t == "{}" then Some([])
    else if t == "" || t[0] != '{' then None
    else
      match ReadMember(t[1..])
      case None => None
      case Some((e, rest)) =>
        match ReadTail(rest)
        case None => None
        case Some(more) => Some([e] + more)
  }

  lemma ReadRenderedMember(e: Entry, rest: string)
    ensures ReadMember(Member(e) + rest) == Some((e, rest))
  {
    var key, value := Escape(e.key), Escape(e.value);
    var afterKey := ":\"" + (value + "\"" + rest);
    SplitMember(key, value, rest, afterKey);
    ReadEscaped(e.key, afterKey);
    ReadEscaped(e.value, rest);
  }

  lemma SplitMember(key: string, value: string, rest: string, afterKey: string)
    requires afterKey == ":\"" + (value + "\"" + rest)
    ensures var t := "\"" + key + "\":\"" + value + "\"" + rest; t[0] == '"' && t[1..] == key + "\"" + afterKey
    ensures afterKey[0] == ':' && afterKey[1] == '"' && afterKey[2..] == value + "\"" + rest
  {
    var t, tail := "\"" + key + "\":\"" + value + "\"" + rest, key + "\"" + afterKey;
    assert t == "\"" + tail;
  }

  lemma {:induction false} ReadRenderedTail(s: seq<Entry>)
    ensures ReadTail(Tail(s)) == Some(s)
  {
    if s != [] {
      var rest := Member(s[0]) + Tail(s[1..]);
      assert Tail(s) == "," + rest && Tail(s)[1..] == rest;
      ReadRenderedMember(s[0], Tail(s[1..]));
      ReadRenderedTail(s[1..]);
      assert s == [s[0]] + s[1..];
    }
  }

  lemma ReadsObject(rest: string, e: Entry, tail: string, more: seq<Entry>)
    requires ReadMember(rest) == Some((e, tail)) && ReadTail(tail) == Some(more)
    ensures ReadObject("{" + rest) == Some([e] + more)
  {
    assert ("{" + rest)[1..] == rest && rest[0] == '"';
  }

  /** Whatever the listing, its rendering reads back entry by entry. */
  lemma RenderRoundTrip(s: seq<Entry>)
    ensures ReadObject(Render(s)) == Some(s)
  {
    if s != [] {
      var rest := Member(s[0]) + Tail(s[1..]);
      ReadRenderedMember(s[0], Tail(s[1..]));
      ReadRenderedTail(s[1..]);
      assert s == [s[0]] + s[1..];
      ReadsObject(rest, s[0], Tail(s[1..]), s[1..]);
    }
  }

  function EncodeArguments(args: Arguments): string {
    Render(Sort(args))
  }

  /** The encoding is a faithful name of the mapping: insertion order leaves no trace, and
    * different mappings never collide, whatever quotes, braces or controls their strings hold.
    */
  lemma EncodingNamesMapping(a: Arguments, b: Arguments)
    ensures EncodeArguments(a) == EncodeArguments(b) <==> AsMap(a) == AsMap(b)
  {
    SortSorts(a);
    SortSorts(b);
    RenderRoundTrip(Sort(a));
    RenderRoundTrip(Sort(b));
    if AsMap(a) == AsMap(b) {
      AscendingUnique(Sort(a), Sort(b));
    }
  }

  /** What section 7 of RFC 8259 asks: the quote, the backslash and the controls are escaped, the short way
    * where there is one, and nothing else is.
    */
  lemma EscapesAreSpelled(c: char)
    ensures EscapeChar('"') == "\\\""
            && EscapeChar('\\') == "\\\\" && EscapeChar('\n') == "\\n" && EscapeChar('\r') == "\\r"
    ensures EscapeChar('\t') == "\\t" && EscapeChar('\U{0008}') == "\\b" && EscapeChar('\U{000C}') == "\\f"
    ensures EscapeChar('\0') == "\\u0000" && EscapeChar('\U{001F}') == "\\u001f"
    ensures c >= ' ' && c != '"' && c != '\\' ==> EscapeChar(c) == [c]
    ensures c < ' ' && c !in ['\n', '\r', '\t', '\U{0008}', '\U{000C}'] ==>
              |EscapeChar(c)| == 6 && EscapeChar(c)[..4] == "\\u00"
                  && (EscapeChar(c)[4] == '0' || EscapeChar(c)[4] == '1')
  {
  }

  ghost predicate Plain(s: string) {
    forall i :: 0 <= i < |s| ==> s[i] >= ' ' && s[i] != '"' && s[i] != '\\'
  }

  lemma {:induction false} PlainEscape(s: string)
    requires Plain(s)
    ensures Escape(s) == s
  {
    if s != "" {
      PlainEscape(s[1..]);
      EscapesAreSpelled(s[0]);
      assert s == [s[0]] + s[1..];
    }
  }

  lemma SortsTwo(a: Entry, b: Entry)
    requires Less(a.key, b.key) && a.key != b.key
    ensures Sort([b, a]) == [a, b]
  {
    LessAsymmetric(a.key, b.key);
    assert [b, a][1..] == [a] && [a][1..] == [] && [a] + [] == [a];
    assert Sort([a]) == [a];
    assert [a] + Insert(b, [a][1..]) == [a, b];
  }

  lemma RendersTwo(a: Entry, b: Entry)
    ensures Render([a, b]) == "{" + (Member(a) + ("," + (Member(b) + "}")))
  {
    assert [a, b][1..] == [b] && [b][1..] == [];
    assert Tail([b]) == "," + (Member(b) + "}");
  }

  lemma PlainMember(e: Entry)
    requires Plain(e.key) && Plain(e.value)
    ensures Member(e) == "\"" + e.key + "\":\"" + e.value + "\""
  {
    PlainEscape(e.key);
    PlainEscape(e.value);
  }

  /** The layout, for two entries of plain characters: braces, quoted names and values, a colon, a comma, no
    * blanks, the smaller key first.
    */
  lemma LayoutIsSpelled(a: Entry, b: Entry)
    requires Less(a.key, b.key) && a.key != b.key
    requires Plain(a.key) && Plain(a.value) && Plain(b.key) && Plain(b.value)
    ensures EncodeArguments([]) == "{}"
    ensures var x, y := "\"" + a.key + "\":\"" + a.value + "\"", "\"" + b.key + "\":\"" + b.value + "\"";
            EncodeArguments([b, a]) == "{" + (x + ("," + (y + "}")))
  {
    SortsTwo(a, b);
    RendersTwo(a, b);
    PlainMember(a);
    PlainMember(b);
  }

  /** The encoder's loop: entries of the sorted listing are written to a buffer one after another.
    * Absent arguments are encoded as none.
    */
  method EncodeCanonicalArguments(given: Option<Arguments>) returns (text: string)
    ensures text == EncodeArguments(if given.Some? then given.value else [])
    ensures given.Some? ==> exists listing :: ReadObject(text) == Some(listing) && AsMap(listing) == AsMap(given.value)
                              && Ascending(listing)
    ensures text == "{}" <==> given.None? || given.value == []
  {
    var args: Arguments := if given.Some? then given.value else [];
    SortSorts(args);
    RenderRoundTrip(Sort(args));
    OnlyNoneIsEmpty(args);
    text := WriteObject(Sort(args));
  }

  /** What is still to be written when `i` entries are. */
  function Unwritten(s: seq<Entry>, i: nat): string
    requires i <= |s|
  {
    if i == 0 then Render(s)[1..] else Tail(s[i..])
  }

  function Separator(i: nat): string {
    if i > 0 then "," else ""
  }

  lemma WriteOne(s: seq<Entry>, i: nat)
    requires i < |s|
    ensures Unwritten(s, i) == Separator(i) + Member(s[i]) + Unwritten(s, i + 1)
  {
    assert s[i..][1..] == s[i + 1..] && s[i..][0] == s[i];
    var member, tail := Member(s[i]), Tail(s[i + 1..]);
    if i == 0 {
      assert Render(s) == "{" + (member + tail);
    } else {
      assert "," + (member + tail) == "," + member + tail;
    }
  }

  method WriteObject(sorted: seq<Entry>) returns (text: string)
    ensures text == Render(sorted)
  {
    var buffer := "{";
    for i := 0 to |sorted|
      invariant Render(sorted) == buffer + Unwritten(sorted, i)
    {
      WriteOne(sorted, i);
      buffer := buffer + (Separator(i) + Member(sorted[i]));
    }
    text := buffer + "}";
  }

  lemma OnlyNoneIsEmpty(args: Arguments)
    ensures EncodeArguments(args) == "{}" <==> args == []
  {
    EncodingNamesMapping(args, []);
    if args != [] { AsMapKeys(args, args[0].key); }
  }
}
