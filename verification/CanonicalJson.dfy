/**
 The canonical JSON text an idempotency key is hashed from, a reader for it, and
 the proof that the text determines the value.
 */
module CanonicalJson {
  import opened Wrappers
  import opened Json
  import Hex

  // ----- Strings, escaped as in section 7 of RFC 8259 ---------------------------------------------

  const QUOTE: char := '\"'
  const BACKSPACE: char := 8 as char
  const FORM_FEED: char := 12 as char

  function EscapeChar(c: char): string {
    if c == QUOTE then "\\\""
    else if c == '\\' then "\\\\"
    else if c == BACKSPACE then "\\b"
    else if c == FORM_FEED then "\\f"
    else if c == '\n' then "\\n"
    else if c == '\r' then "\\r"
    else if c == '\t' then "\\t"
    else if c < ' ' then "\\u00" + [Hex.DIGITS[c as int / 16], Hex.DIGITS[c as int % 16]]
    else [c]
  }

  function EscapeBody(s: string): string {
    if s == "" then "" else EscapeChar(s[0]) + EscapeBody(s[1..])
  }

  function Quoted(s: string): string {
    [QUOTE] + EscapeBody(s) + [QUOTE]
  }

  /** The character a backslash and one letter stand for. */
  function Unescaped(c: char): Option<char> {
    if c == QUOTE || c == '\\' then Some(c)
    else if c == 'b' then Some(BACKSPACE)
    else if c == 'f' then Some(FORM_FEED)
    else if c == 'n' then Some('\n')
    else if c == 'r' then Some('\r')
    else if c == 't' then Some('\t')
    else None
  }

  function ReadChar(s: string): (r: Option<(char, string)>)
    requires s != ""
    ensures r.Some? ==> |r.value.1| < |s|
  {
    if s[0] != '\\' then (if s[0] < ' ' then None else Some((s[0], s[1..])))
    else if |s| < 2 then None
    else if Unescaped(s[1]).Some? then Some((Unescaped(s[1]).value, s[2..]))
    else if |s| >= 6 && s[1..4] == "u00" && Hex.IsHexDigit(s[4]) && Hex.IsHexDigit(s[5])
    then Some(((Hex.Nibble(s[4]).value * 16 + Hex.Nibble(s[5]).value) as char, s[6..]))
    else None
  }

  /** A string body up to and including its closing quote. */
  function ReadBody(s: string): (r: Option<(string, string)>)
    ensures r.Some? ==> |r.value.1| < |s|
    decreases |s|
  {
    if s == "" then None
    else if s[0] == QUOTE then Some(("", s[1..]))
    else
      match ReadChar(s)
      case None => None
      case Some((c, rest)) =>
        match ReadBody(rest)
        case None => None
        case Some((body, after)) => Some(([c] + body, after))
  }

  lemma ReadShort(letter: char, c: char, rest: string)
    requires Unescaped(letter) == Some(c)
    ensures ReadChar(['\\', letter] + rest) == Some((c, rest))
  {
    assert (['\\', letter] + rest)[2..] == rest;
  }

  lemma ReadControl(n: nat, rest: string)
    requires n < 32
    ensures ReadChar("\\u00" + [Hex.DIGITS[n / 16], Hex.DIGITS[n % 16]] + rest) == Some((n as char, rest))
  {
    var s := "\\u00" + [Hex.DIGITS[n / 16], Hex.DIGITS[n % 16]] + rest;
    Hex.DigitNibble(n / 16);
    Hex.DigitNibble(n % 16);
    assert s[1..4] == "u00" && s[6..] == rest;
    assert s[4] == Hex.DIGITS[n / 16] && s[5] == Hex.DIGITS[n % 16];
  }

  lemma ReadPlain(c: char, rest: string)
    requires c >= ' ' && c != '\\'
    ensures ReadChar([c] + rest) == Some((c, rest))
  {
    assert ([c] + rest)[1..] == rest;
  }

  lemma ReadEscape(c: char, rest: string)
    ensures EscapeChar(c) != "" && EscapeChar(c)[0] != QUOTE
    ensures ReadChar(EscapeChar(c) + rest) == Some((c, rest))
  {
    if |EscapeChar(c)| == 1 {
      ReadPlain(c, rest);
    } else if |EscapeChar(c)| == 2 {
      ReadShort(EscapeChar(c)[1], c, rest);
      assert EscapeChar(c) == ['\\', EscapeChar(c)[1]];
    } else {
      ReadControl(c as int, rest);
    }
  }

  lemma ReadBodyOn(s: string, c: char, tail: string, body: string, rest: string)
    requires s != "" && s[0] != QUOTE && ReadChar(s) == Some((c, tail)) && ReadBody(tail) == Some((body, rest))
    ensures ReadBody(s) == Some(([c] + body, rest))
  {}

  lemma Appended(text: string, head: string, tail: string, close: string, rest: string)
    requires text == head + tail
    ensures text + close + rest == head + (tail + close + rest)
  {}

  lemma {:induction false} ReadEscaped(body: string, rest: string)
    ensures ReadBody(EscapeBody(body) + [QUOTE] + rest) == Some((body, rest))
  {
    var s := EscapeBody(body) + [QUOTE] + rest;
    if body == "" {
      assert s[1..] == rest;
    } else {
      var tail := EscapeBody(body[1..]) + [QUOTE] + rest;
      ReadEscaped(body[1..], rest);
      ReadEscape(body[0], tail);
      Appended(EscapeBody(body), EscapeChar(body[0]), EscapeBody(body[1..]), [QUOTE], rest);
      ReadBodyOn(s, body[0], tail, body[1..], rest);
      assert body == [body[0]] + body[1..];
    }
  }

  // ----- Numbers ------------------------------------------------------------------------------------

  function NumberRun(s: string): (n: nat)
    ensures n <= |s|
  {
    if s == "" || !NumberChar(s[0]) then 0 else 1 + NumberRun(s[1..])
  }

  /** Nothing that would continue a number follows. */
  predicate Clear(rest: string) {
    rest == "" || !NumberChar(rest[0])
  }

  lemma {:induction false} NumberRunOf(token: string, rest: string)
    requires (forall i :: 0 <= i < |token| ==> NumberChar(token[i])) && Clear(rest)
    ensures NumberRun(token + rest) == |token|
  {
    if token == "" {
      assert token + rest == rest;
    } else {
      assert (token + rest)[1..] == token[1..] + rest;
      NumberRunOf(token[1..], rest);
    }
  }

  // ----- Values ---------------------------------------------------------------------------------------

  function Write(v: Value): string {
    match v
    case Null => "null"
    case Bool(b) => if b then "true" else "false"
    case Number(token) => token
    case Str(s) => Quoted(s)
    case Arr(items) => "[" + WriteItems(items) + "]"
    case Obj(entries) => "{" + WriteEntries(entries) + "}"
  }

  function WriteItems(items: seq<Value>): string {
    if items == [] then ""
    else if |items| == 1 then Write(items[0])
    else Write(items[0]) + "," + WriteItems(items[1..])
  }

  function WriteEntry(e: Entry): string {
    Quoted(e.key) + ":" + Write(e.value)
  }

  function WriteEntries(entries: seq<Entry>): string {
    if entries == [] then ""
    else if |entries| == 1 then WriteEntry(entries[0])
    else WriteEntry(entries[0]) + "," + WriteEntries(entries[1..])
  }

  /** The canonical text: object entries sorted at every level. */
  function Canonical(v: Value): string {
    Write(Norm(v))
  }

  function ReadValue(s: string): (r: Option<(Value, string)>)
    ensures r.Some? ==> |r.value.1| < |s|
    decreases |s|, 0
  {
    if s == "" then None
    else if s[0] == 'n' then (if "null" <= s then Some((Null, s[4..])) else None)
    else if s[0] == 't' then (if "true" <= s then Some((Bool(true), s[4..])) else None)
    else if s[0] == 'f' then (if "false" <= s then Some((Bool(false), s[5..])) else None)
    else if s[0] == QUOTE then
      match ReadBody(s[1..])
      case None => None
      case Some((body, rest)) => Some((Str(body), rest))
    else if s[0] == '[' then
      if |s| > 1 && s[1] == ']' then Some((Arr([]), s[2..]))
      else
        match ReadItems(s[1..])
        case None => None
        case Some((items, rest)) => Some((Arr(items), rest))
    else if s[0] == '{' then
      if |s| > 1 && s[1] == '}' then Some((Obj([]), s[2..]))
      else
        match ReadEntries(s[1..])
        case None => None
        case Some((entries, rest)) => Some((Obj(entries), rest))
    else if NumberRun(s) > 0 then Some((Number(s[..NumberRun(s)]), s[NumberRun(s)..]))
    else None
  }

  function ReadItems(s: string): (r: Option<(seq<Value>, string)>)
    ensures r.Some? ==> |r.value.1| < |s|
    decreases |s|, 1
  {
    match ReadValue(s)
    case None => None
    case Some((item, rest)) =>
      if rest == "" then None
      else if rest[0] == ']' then Some(([item], rest[1..]))
      else if rest[0] == ',' then
        match ReadItems(rest[1..])
        case None => None
        case Some((items, after)) => Some(([item] + items, after))
      else None
  }

  function ReadEntry(s: string): (r: Option<(Entry, string)>)
    ensures r.Some? ==> |r.value.1| < |s|
    decreases |s|, 0
  {
    if s == "" || s[0] != QUOTE then None
    else
      match ReadBody(s[1..])
      case None => None
      case Some((key, rest)) =>
        if rest == "" || rest[0] != ':' then None
        else
          match ReadValue(rest[1..])
          case None => None
          case Some((value, after)) => Some((Entry(key, value), after))
  }

  function ReadEntries(s: string): (r: Option<(seq<Entry>, string)>)
    ensures r.Some? ==> |r.value.1| < |s|
    decreases |s|, 1
  {
    match ReadEntry(s)
    case None => None
    case Some((entry, rest)) =>
      if rest == "" then None
      else if rest[0] == '}' then Some(([entry], rest[1..]))
      else if rest[0] == ',' then
        match ReadEntries(rest[1..])
        case None => None
        case Some((entries, after)) => Some(([entry] + entries, after))
      else None
  }

  // ----- Reading undoes writing ---------------------------------------------------------------------

  lemma WriteStarts(v: Value)
    requires Valid(v)
    ensures Write(v) != "" && Write(v)[0] != ']'
  {}

  lemma ReadNumber(s: string, token: string, rest: string)
    requires NumberToken(token) && Clear(rest) && s == token + rest
    ensures ReadValue(s) == Some((Number(token), rest))
  {
    NumberRunOf(token, rest);
    assert NumberChar(s[0]) && s[..|token|] == token && s[|token|..] == rest;
  }

  lemma ReadArray(s: string, items: seq<Value>, rest: string)
    requires |s| > 1 && s[0] == '[' && s[1] != ']' && ReadItems(s[1..]) == Some((items, rest))
    ensures ReadValue(s) == Some((Arr(items), rest))
  {}

  lemma ReadObject(s: string, entries: seq<Entry>, rest: string)
    requires |s| > 1 && s[0] == '{' && s[1] != '}' && ReadEntries(s[1..]) == Some((entries, rest))
    ensures ReadValue(s) == Some((Obj(entries), rest))
  {}

  lemma ReadLastItem(s: string, item: Value, rest: string)
    requires ReadValue(s) == Some((item, "]" + rest))
    ensures ReadItems(s) == Some(([item], rest))
  {
    assert ("]" + rest)[1..] == rest;
  }

  lemma ReadNextItem(s: string, item: Value, tail: string, items: seq<Value>, rest: string)
    requires ReadValue(s) == Some((item, "," + tail)) && ReadItems(tail) == Some((items, rest))
    ensures ReadItems(s) == Some(([item] + items, rest))
  {
    assert ("," + tail)[1..] == tail;
  }

  lemma ReadLastEntry(s: string, e: Entry, rest: string)
    requires ReadEntry(s) == Some((e, "}" + rest))
    ensures ReadEntries(s) == Some(([e], rest))
  {
    assert ("}" + rest)[1..] == rest;
  }

  lemma ReadNextEntry(s: string, e: Entry, tail: string, entries: seq<Entry>, rest: string)
    requires ReadEntry(s) == Some((e, "," + tail)) && ReadEntries(tail) == Some((entries, rest))
    ensures ReadEntries(s) == Some(([e] + entries, rest))
  {
    assert ("," + tail)[1..] == tail;
  }

  lemma ReadPair(s: string, body: string, key: string, text: string, value: Value, rest: string)
    requires s == [QUOTE] + body && ReadBody(body) == Some((key, ":" + text)) && ReadValue(text) == Some((value, rest))
    ensures ReadEntry(s) == Some((Entry(key, value), rest))
  {
    assert s[1..] == body && (":" + text)[1..] == text;
  }

  lemma ReadTextBody(s: string, body: string, rest: string)
    requires s != "" && s[0] == QUOTE && ReadBody(s[1..]) == Some((body, rest))
    ensures ReadValue(s) == Some((Str(body), rest))
  {}

  lemma QuotedShape(s: string, escaped: string, rest: string)
    requires s == [QUOTE] + escaped + [QUOTE] + rest
    ensures s != "" && s[0] == QUOTE && s[1..] == escaped + [QUOTE] + rest
  {}

  lemma ReadText(s: string, body: string, rest: string)
    requires s == Quoted(body) + rest
    ensures ReadValue(s) == Some((Str(body), rest))
  {
    ReadEscaped(body, rest);
    QuotedShape(s, EscapeBody(body), rest);
    ReadTextBody(s, body, rest);
  }

  lemma ReadLiteral(s: string, v: Value, rest: string)
    requires (v.Null? || v.Bool? || v == Arr([]) || v == Obj([])) && s == Write(v) + rest
    ensures ReadValue(s) == Some((v, rest))
  {
    assert s[|Write(v)|..] == rest;
  }

  /** A reader recovers every value from its text, whatever follows it. */
  lemma {:induction false} ReadWrite(s: string, v: Value, rest: string)
    requires Valid(v) && Clear(rest) && s == Write(v) + rest
    ensures ReadValue(s) == Some((v, rest))
    decreases v
  {
    match v
    case Number(token) => ReadNumber(s, token, rest);
    case Str(body) => ReadText(s, body, rest);
    case Arr(items) =>
      if items == [] {
        ReadLiteral(s, v, rest);
      } else {
        ArrayText(s, items, rest);
        ReadWriteItems(s[1..], items, rest);
        ReadArray(s, items, rest);
      }
    case Obj(entries) =>
      if entries == [] {
        ReadLiteral(s, v, rest);
      } else {
        ObjectText(s, entries, rest);
        ReadWriteEntries(s[1..], entries, rest);
        ReadObject(s, entries, rest);
      }
    case _ => ReadLiteral(s, v, rest);
  }

  lemma Bracketed(s: string, open: char, inner: string, close: string, rest: string)
    requires s == [open] + inner + close + rest && inner != ""
    ensures |s| > 1 && s[0] == open && s[1] == inner[0] && s[1..] == inner + close + rest
  {}

  lemma ArrayText(s: string, items: seq<Value>, rest: string)
    requires items != [] && Valid(items[0]) && s == Write(Arr(items)) + rest
    ensures |s| > 1 && s[0] == '[' && s[1] != ']' && s[1..] == WriteItems(items) + "]" + rest
  {
    WriteStarts(items[0]);
    Bracketed(s, '[', WriteItems(items), "]", rest);
  }

  lemma ObjectText(s: string, entries: seq<Entry>, rest: string)
    requires entries != [] && s == Write(Obj(entries)) + rest
    ensures |s| > 1 && s[0] == '{' && s[1] != '}' && s[1..] == WriteEntries(entries) + "}" + rest
  {
    EntryStarts(entries);
    Bracketed(s, '{', WriteEntries(entries), "}", rest);
  }

  lemma EntryStarts(entries: seq<Entry>)
    requires entries != []
    ensures WriteEntries(entries) != "" && WriteEntries(entries)[0] == QUOTE
  {
    assert Quoted(entries[0].key)[0] == QUOTE;
  }

  lemma Regroup(a: string, b: string, c: string, d: string)
    ensures a + b + c + d == a + (b + (c + d))
  {}

  lemma ListText(text: string, head: string, tail: string, close: string, rest: string)
    ensures text == head ==> text + close + rest == head + (close + rest)
    ensures text == head + "," + tail ==> text + close + rest == head + ("," + (tail + close + rest))
  {}

  lemma EntriesText(entries: seq<Entry>, rest: string)
    requires entries != []
    ensures |entries| == 1 ==> WriteEntries(entries) + "}" + rest == WriteEntry(entries[0]) + ("}" + rest)
    ensures |entries| > 1 ==> WriteEntries(entries) + "}" + rest
                              == WriteEntry(entries[0]) + ("," + (WriteEntries(entries[1..]) + "}" + rest))
  {
    ListText(WriteEntries(entries), WriteEntry(entries[0]), WriteEntries(entries[1..]), "}", rest);
  }

  lemma EntryText(e: Entry, rest: string)
    ensures WriteEntry(e) + rest == [QUOTE] + (EscapeBody(e.key) + [QUOTE] + (":" + (Write(e.value) + rest)))
  {
    Regroup([QUOTE], EscapeBody(e.key), [QUOTE], ":" + (Write(e.value) + rest));
    Regroup(Quoted(e.key), ":", Write(e.value), rest);
  }

  lemma {:induction false} ReadWriteItems(s: string, items: seq<Value>, rest: string)
    requires items != [] && (forall i :: 0 <= i < |items| ==> Valid(items[i])) && s == WriteItems(items) + "]" + rest
    ensures ReadItems(s) == Some((items, rest))
    decreases items
  {
    ListText(WriteItems(items), Write(items[0]), WriteItems(items[1..]), "]", rest);
    if |items| == 1 {
      ReadWrite(s, items[0], "]" + rest);
      ReadLastItem(s, items[0], rest);
      assert items == [items[0]];
    } else {
      var tail := WriteItems(items[1..]) + "]" + rest;
      ReadWrite(s, items[0], "," + tail);
      ReadWriteItems(tail, items[1..], rest);
      ReadNextItem(s, items[0], tail, items[1..], rest);
      assert items == [items[0]] + items[1..];
    }
  }

  lemma {:induction false} ReadWriteEntry(s: string, e: Entry, rest: string)
    requires Valid(e.value) && Clear(rest) && s == WriteEntry(e) + rest
    ensures ReadEntry(s) == Some((e, rest))
    decreases e
  {
    var text := Write(e.value) + rest;
    var body := EscapeBody(e.key) + [QUOTE] + (":" + text);
    EntryText(e, rest);
    ReadEscaped(e.key, ":" + text);
    ReadWrite(text, e.value, rest);
    ReadPair(s, body, e.key, text, e.value, rest);
  }

  lemma {:induction false} ReadWriteEntries(s: string, entries: seq<Entry>, rest: string)
    requires entries != [] && (forall i :: 0 <= i < |entries| ==> Valid(entries[i].value))
    requires s == WriteEntries(entries) + "}" + rest
    ensures ReadEntries(s) == Some((entries, rest))
    decreases entries
  {
    EntriesText(entries, rest);
    if |entries| == 1 {
      ReadWriteEntry(s, entries[0], "}" + rest);
      ReadLastEntry(s, entries[0], rest);
      assert entries == [entries[0]];
    } else {
      var tail := WriteEntries(entries[1..]) + "}" + rest;
      ReadWriteEntry(s, entries[0], "," + tail);
      ReadWriteEntries(tail, entries[1..], rest);
      ReadNextEntry(s, entries[0], tail, entries[1..], rest);
      assert entries == [entries[0]] + entries[1..];
    }
  }
}
