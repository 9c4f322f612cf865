/** Writing TEXT values: icalEscape and buildDescription of internal/calendar/caldav.go. */
module ICalText {
  import opened Entities

  /** strings.ReplaceAll for a pattern of one character. */
  function ReplaceAll(s: string, c: char, r: string): string {
    if s == [] then [] else (if s[0] == c then r else [s[0]]) + ReplaceAll(s[1..], c, r)
  }

  /** Four passes over the whole text, in this order. */
  function Escape(s: string): string {
    ReplaceAll(ReplaceAll(ReplaceAll(ReplaceAll(s, '\\', "\\\\"), '\n', "\\n"), ';', "\\;"), ',', "\\,")
  }

  function EscapeChar(c: char): string {
    if c == '\\' then "\\\\" else if c == '\n' then "\\n" else if c == ';' then "\\;" else if c == ',' then "\\,"
    else [c]
  }

  function EscapeOnce(s: string): string {
    if s == [] then [] else EscapeChar(s[0]) + EscapeOnce(s[1..])
  }

  lemma {:induction false} ReplaceAppend(a: string, b: string, c: char, r: string)
    ensures ReplaceAll(a + b, c, r) == ReplaceAll(a, c, r) + ReplaceAll(b, c, r)
  {
    if a == [] {
      assert a + b == b;
    } else {
      assert (a + b)[1..] == a[1..] + b;
      ReplaceAppend(a[1..], b, c, r);
    }
  }

  lemma ReplaceOne(x: char, c: char, r: string)
    ensures ReplaceAll([x], c, r) == if x == c then r else [x]
  {
  }

  lemma ReplaceTwo(x: char, y: char, c: char, r: string)
    ensures ReplaceAll([x, y], c, r) == (if x == c then r else [x]) + (if y == c then r else [y])
  {
    ReplaceOne(y, c, r);
    assert [x, y][1..] == [y];
  }

  /** Escapes that an earlier pass wrote are not touched by a later one. */
  lemma EscapeOfChar(c: char)
    ensures Escape([c]) == EscapeChar(c)
  {
    ReplaceOne(c, '\\', "\\\\");
    var s := EscapeChar(c);
    if c == '\\' {
      ReplaceTwo('\\', '\\', '\n', "\\n");
      ReplaceTwo('\\', '\\', ';', "\\;");
      ReplaceTwo('\\', '\\', ',', "\\,");
    } else {
      ReplaceOne(c, '\n', "\\n");
      if c == '\n' {
        ReplaceTwo('\\', 'n', ';', "\\;");
        ReplaceTwo('\\', 'n', ',', "\\,");
      } else {
        ReplaceOne(c, ';', "\\;");
        ReplaceOne(c, ',', "\\,");
        ReplaceTwo('\\', ';', ',', "\\,");
      }
    }
  }

  lemma EscapeAppend(a: string, b: string)
    ensures Escape(a + b) == Escape(a) + Escape(b)
  {
    var p1, q1 := ReplaceAll(a, '\\', "\\\\"), ReplaceAll(b, '\\', "\\\\");
    var p2, q2 := ReplaceAll(p1, '\n', "\\n"), ReplaceAll(q1, '\n', "\\n");
    var p3, q3 := ReplaceAll(p2, ';', "\\;"), ReplaceAll(q2, ';', "\\;");
    ReplaceAppend(a, b, '\\', "\\\\");
    ReplaceAppend(p1, q1, '\n', "\\n");
    ReplaceAppend(p2, q2, ';', "\\;");
    ReplaceAppend(p3, q3, ',', "\\,");
  }

  /** The four passes amount to escaping each character once. */
  lemma {:induction false} EscapeIsOnePass(s: string)
    ensures Escape(s) == EscapeOnce(s)
  {
    if s != [] {
      assert s == [s[0]] + s[1..];
      EscapeAppend([s[0]], s[1..]);
      EscapeOfChar(s[0]);
      EscapeIsOnePass(s[1..]);
    }
  }

  // ---------- Reading TEXT, section 3.3.11 of RFC 5545 ----------

  /** ESCAPED-CHAR is a backslash followed by one of \ ; , N n. */
  function Unescape(c: char): Option<char> {
    if c == 'n' || c == 'N' then Some('\n')
    else if c == '\\' || c == ';' || c == ',' then Some(c)
    else None
  }

  /** None when an escape or a separator is out of place. */
  function Decode(s: string): Option<string> {
    if s == [] then Some([])
    else if s[0] == '\\' then
      if |s| == 1 then None
      else
        match (Unescape(s[1]), Decode(s[2..]))
        case (Some(c), Some(rest)) => Some([c] + rest)
        case _ => None
    else if s[0] == ';' || s[0] == ',' || s[0] == '\n' then None
    else
      match Decode(s[1..])
      case Some(rest) => Some([s[0]] + rest)
      case None => None
  }

  /** What is read when s comes before text that reads as d. */
  function Before(s: string, d: Option<string>): Option<string> {
    match d
    case Some(rest) => Some(s + rest)
    case None => None
  }

  lemma BeforeTwice(a: string, b: string, d: Option<string>)
    ensures Before(a, Before(b, d)) == Before(a + b, d)
    ensures Before("", d) == d
  {
    if d.Some? {
      assert a + (b + d.value) == a + b + d.value;
      assert "" + d.value == d.value;
    }
  }

  lemma DecodeEscapedChar(c: char, tail: string)
    ensures Decode(EscapeChar(c) + tail) == Before([c], Decode(tail))
  {
  }

  lemma {:induction false} DecodeEscapeOnce(s: string, tail: string)
    ensures Decode(EscapeOnce(s) + tail) == Before(s, Decode(tail))
  {
    if s == [] {
      assert EscapeOnce(s) + tail == tail;
      BeforeTwice("", "", Decode(tail));
    } else {
      assert EscapeOnce(s) + tail == EscapeChar(s[0]) + (EscapeOnce(s[1..]) + tail);
      DecodeEscapedChar(s[0], EscapeOnce(s[1..]) + tail);
      DecodeEscapeOnce(s[1..], tail);
      BeforeTwice([s[0]], s[1..], Decode(tail));
      assert s == [s[0]] + s[1..];
    }
  }

  /** Every text is read back as it was, whatever follows it. */
  lemma EscapeReadBack(s: string, tail: string)
    ensures Decode(Escape(s) + tail) == Before(s, Decode(tail))
  {
    EscapeIsOnePass(s);
    DecodeEscapeOnce(s, tail);
  }

  lemma EscapeRoundTrip(s: string)
    ensures Decode(Escape(s)) == Some(s)
  {
    EscapeReadBack(s, "");
    assert Escape(s) + "" == Escape(s) && s + "" == s;
  }

  // ---------- What the grammar of section 3.1 of RFC 5545 allows inside TEXT ----------

  /** CONTROL: every control character except the horizontal tab. */
  predicate Control(c: char) {
    (c < ' ' && c != '\t') || c == 127 as char
  }

  predicate NoControl(s: string) {
    forall c :: c in s ==> !Control(c)
  }

  lemma {:induction false} EscapeOnceControls(s: string)
    ensures NoControl(EscapeOnce(s)) <==> forall c :: c in s ==> c == '\n' || !Control(c)
  {
    if s != [] {
      EscapeOnceControls(s[1..]);
      assert s == [s[0]] + s[1..];
      var head, rest := EscapeChar(s[0]), EscapeOnce(s[1..]);
      assert forall c :: c in head + rest <==> c in head || c in rest;
      if s[0] == '\n' || !Control(s[0]) {
        assert NoControl(head);
      } else {
        assert s[0] in head;
      }
    }
  }

  /**
    * Line feeds are the only control characters that Escape takes care of: its output is TEXT of the grammar exactly
    * when the input has no other. A carriage return, which browsers put into a multi-line note, passes through.
    */
  lemma EscapedIsTextExactly(s: string)
    ensures NoControl(Escape(s)) <==> forall c :: c in s && c != '\n' ==> !Control(c)
  {
    EscapeIsOnePass(s);
    EscapeOnceControls(s);
  }

  lemma CarriageReturnPasses()
    ensures !NoControl(Escape("a\r\nb"))
  {
    var note := "a\r\nb";
    assert note[1] == '\r' && '\r' in note;
    EscapedIsTextExactly(note);
  }

  // ---------- buildDescription ----------

  function Join(parts: seq<string>, sep: string): string {
    if parts == [] then "" else if |parts| == 1 then parts[0] else parts[0] + sep + Join(parts[1..], sep)
  }

  function DescriptionParts(guest: Guest, confirmedMessage: string): seq<string> {
    ["Guest: " + guest.name, "Email: " + guest.email]
    + (if guest.note != "" then [guest.note] else [])
    + (if confirmedMessage != "" then [confirmedMessage] else [])
  }

  function EscapedParts(parts: seq<string>): seq<string> {
    seq(|parts|, i requires 0 <= i < |parts| => Escape(parts[i]))
  }

  lemma EscapedPartsSnoc(parts: seq<string>, p: string)
    ensures EscapedParts(parts + [p]) == EscapedParts(parts) + [Escape(p)]
  {
  }

  lemma {:induction false} PlainIsItsOwnEscape(title: string)
    requires forall c :: c in title ==> EscapeChar(c) == [c]
    ensures EscapeOnce(title) == title
  {
    if title != [] {
      PlainIsItsOwnEscape(title[1..]);
      assert title == [title[0]] + title[1..];
    }
  }

  lemma TitledIsEscaped(title: string, s: string)
    requires forall c :: c in title ==> EscapeChar(c) == [c]
    ensures Escape(title + s) == title + Escape(s)
  {
    EscapeAppend(title, s);
    EscapeIsOnePass(title);
    PlainIsItsOwnEscape(title);
  }

  lemma DecodeNewline(tail: string)
    ensures Decode("\\n" + tail) == Before("\n", Decode(tail))
  {
  }

  /** Decoding escaped parts that were joined by an escaped line feed gives the parts joined by line feeds. */
  lemma {:induction false} DecodeJoined(parts: seq<string>)
    ensures Decode(Join(EscapedParts(parts), "\\n")) == Some(Join(parts, "\n"))
    decreases |parts|
  {
    if |parts| == 1 {
      EscapeRoundTrip(parts[0]);
    } else if |parts| > 1 {
      var first, rest := parts[0], parts[1..];
      var tail := Join(EscapedParts(rest), "\\n");
      assert EscapedParts(parts)[1..] == EscapedParts(rest);
      assert Join(EscapedParts(parts), "\\n") == Escape(first) + ("\\n" + tail);
      DecodeJoined(rest);
      DecodeNewline(tail);
      EscapeReadBack(first, "\\n" + tail);
      assert first + ("\n" + Join(rest, "\n")) == Join(parts, "\n");
    }
  }

  lemma HeadIsEscaped(guest: Guest)
    ensures ["Guest: " + Escape(guest.name), "Email: " + Escape(guest.email)] ==
            EscapedParts(["Guest: " + guest.name, "Email: " + guest.email])
  {
    TitledIsEscaped("Guest: ", guest.name);
    TitledIsEscaped("Email: ", guest.email);
  }

  lemma {:induction false} JoinSnoc(parts: seq<string>, p: string, sep: string)
    requires parts != []
    ensures Join(parts + [p], sep) == Join(parts, sep) + sep + p
    decreases |parts|
  {
    if |parts| == 1 {
      assert (parts + [p])[1..] == [p];
    } else {
      assert (parts + [p])[1..] == parts[1..] + [p];
      JoinSnoc(parts[1..], p, sep);
    }
  }

  lemma JoinWithOptional(parts: seq<string>, p: string)
    requires parts != []
    ensures Join(parts + (if p != "" then [p] else []), "\n") == Join(parts, "\n") + if p != "" then "\n" + p else ""
  {
    if p != "" {
      JoinSnoc(parts, p, "\n");
      assert Join(parts, "\n") + "\n" + p == Join(parts, "\n") + ("\n" + p);
    } else {
      assert parts + [] == parts;
    }
  }

  lemma DescriptionLines(guest: Guest, confirmedMessage: string)
    ensures Join(DescriptionParts(guest, confirmedMessage), "\n") ==
            "Guest: " + guest.name + "\n" + "Email: " + guest.email
            + (if guest.note != "" then "\n" + guest.note else "")
            + (if confirmedMessage != "" then "\n" + confirmedMessage else "")
  {
    var head := ["Guest: " + guest.name, "Email: " + guest.email];
    var noted := head + if guest.note != "" then [guest.note] else [];
    JoinSnoc([head[0]], head[1], "\n");
    assert [head[0]] + [head[1]] == head;
    JoinWithOptional(head, guest.note);
    JoinWithOptional(noted, confirmedMessage);
  }

  /** internal/calendar/caldav.go:394-406 */
  method BuildDescription(guest: Guest, confirmedMessage: string) returns (text: string)
    ensures Decode(text) == Some("Guest: " + guest.name + "\n" + "Email: " + guest.email
                                 + (if guest.note != "" then "\n" + guest.note else "")
                                 + (if confirmedMessage != "" then "\n" + confirmedMessage else ""))
  {
    var parts := ["Guest: " + Escape(guest.name), "Email: " + Escape(guest.email)];
    ghost var plain := ["Guest: " + guest.name, "Email: " + guest.email];
    HeadIsEscaped(guest);
    if guest.note != "" {
      EscapedPartsSnoc(plain, guest.note);
      parts, plain := parts + [Escape(guest.note)], plain + [guest.note];
    }
    if confirmedMessage != "" {
      EscapedPartsSnoc(plain, confirmedMessage);
      parts, plain := parts + [Escape(confirmedMessage)], plain + [confirmedMessage];
    }
    assert plain == DescriptionParts(guest, confirmedMessage);
    DecodeJoined(plain);
    DescriptionLines(guest, confirmedMessage);
    text := Join(parts, "\\n");
  }
}
