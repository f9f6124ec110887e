/** A reader for the JSON texts of the format: objects, arrays, strings, true, false and null
    without white space (RFC 8259). It knows nothing of the printer. */
module JsonReader {
  import opened Ids
  import opened Utf8

  datatype Json =
    | Null
    | Flag(holds: bool)
    | Str(text: Bytes)
    | List(items: seq<Json>)
    | Object(members: seq<Member>)

  datatype Member = Member(name: Bytes, value: Json)

  const COMMA_BYTE: byte := 44
  const COLON: byte := 58
  const OPEN_LIST: byte := 91
  const CLOSE_LIST: byte := 93
  const OPEN_OBJECT: byte := 123
  const CLOSE_OBJECT: byte := 125

  // ------------------------------------------------------------------ reading

  lemma {:induction false} CharsShrink(b: Bytes)
    ensures ParseChars(b).Some? ==> |ParseChars(b).value.1| < |b|
    decreases |b|
  {
    if b != [] && b[0] != QUOTE && ParseRune(b).Some? {
      ParseRuneWidth(b);
      CharsShrink(b[ParseRune(b).value.1..]);
    }
  }

  // A string value and the bytes after it.
  function ParseText(b: Bytes): (r: Option<(Bytes, Bytes)>)
    ensures r.Some? ==> |r.value.1| < |b|
  {
    var parsed := ParseString(b);
    if parsed.None? then None
    else
      CharsShrink(b[1..]);
      Some((Encoded(parsed.value.0), parsed.value.1))
  }

  // One value and the bytes after it.
  function ParseValue(b: Bytes): (r: Option<(Json, Bytes)>)
    ensures r.Some? ==> |r.value.1| < |b|
    decreases |b|, 0
  {
    if b == [] then None
    else if b[0] == QUOTE then
      var text := ParseText(b);
      if text.None? then None else Some((Str(text.value.0), text.value.1))
    else if b[0] == OPEN_LIST then
      if |b| >= 2 && b[1] == CLOSE_LIST then Some((List([]), b[2..]))
      else
        var items := ParseItems(b[1..]);
        if items.None? then None else Some((List(items.value.0), items.value.1))
    else if b[0] == OPEN_OBJECT then
      if |b| >= 2 && b[1] == CLOSE_OBJECT then Some((Object([]), b[2..]))
      else
        var members := ParseMembers(b[1..]);
        if members.None? then None else Some((Object(members.value.0), members.value.1))
    else if Lit("null") <= b then Some((Null, b[4..]))
    else if Lit("true") <= b then Some((Flag(true), b[4..]))
    else if Lit("false") <= b then Some((Flag(false), b[5..]))
    else None
  }

  // The items of an array up to its closing bracket.
  function ParseItems(b: Bytes): (r: Option<(seq<Json>, Bytes)>)
    ensures r.Some? ==> |r.value.1| < |b|
    decreases |b|, 1
  {
    var first := ParseValue(b);
    if first.None? || first.value.1 == [] then None
    else
      var v, after := first.value.0, first.value.1;
      if after[0] == CLOSE_LIST then Some(([v], after[1..]))
      else if after[0] != COMMA_BYTE then None
      else
        var more := ParseItems(after[1..]);
        if more.None? then None else Some(([v] + more.value.0, more.value.1))
  }

  // The members of an object up to its closing brace.
  function ParseMembers(b: Bytes): (r: Option<(seq<Member>, Bytes)>)
    ensures r.Some? ==> |r.value.1| < |b|
    decreases |b|, 1
  {
    var name := ParseText(b);
    if name.None? || name.value.1 == [] || name.value.1[0] != COLON then None
    else
      var first := ParseValue(name.value.1[1..]);
      if first.None? || first.value.1 == [] then None
      else
        var m, after := Member(name.value.0, first.value.0), first.value.1;
        if after[0] == CLOSE_OBJECT then Some(([m], after[1..]))
        else if after[0] != COMMA_BYTE then None
        else
          var more := ParseMembers(after[1..]);
          if more.None? then None else Some(([m] + more.value.0, more.value.1))
  }

  // --------------------------------------------------- what printed text reads as

  // Printable ASCII that needs no escape.
  predicate Plain(b: Bytes) {
    forall i :: 0 <= i < |b| ==> 32 <= b[i] < 127 && b[i] != QUOTE && b[i] != BACKSLASH
  }

  lemma {:induction false} PlainQuoted(b: Bytes)
    requires Plain(b)
    ensures Runes(b).Some? && Escaped(Runes(b).value) == b
  {
    if b != [] {
      PlainQuoted(b[1..]);
      assert DecodeRune(b) == Some((b[0] as int, 1));
      var rs := Runes(b).value;
      assert rs == [b[0] as int] + Runes(b[1..]).value;
      assert rs[1..] == Runes(b[1..]).value && EscapedRune(rs[0]) == [b[0]];
      assert b == [b[0]] + b[1..];
    }
  }

  // A quoted string reads as what was quoted, whatever follows.
  lemma TextRead(value: Bytes, rest: Bytes)
    requires Runes(value).Some?
    ensures ParseText(Quoted(Runes(value).value) + rest) == Some((value, rest))
    ensures ParseValue(Quoted(Runes(value).value) + rest) == Some((Str(value), rest))
  {
    QuotedParses(Runes(value).value, rest);
    ValidIsEncoded(value);
  }

  function Name(name: Bytes): Bytes {
    [QUOTE] + name + [QUOTE, COLON]
  }

  lemma NameRead(name: Bytes, rest: Bytes)
    requires Plain(name)
    ensures ParseText(Name(name) + rest) == Some((name, [COLON] + rest))
  {
    PlainQuoted(name);
    TextRead(name, [COLON] + rest);
    assert Name(name) + rest == Quoted(Runes(name).value) + ([COLON] + rest);
  }

  // One member, the last or one that others follow.
  lemma MemberRead(name: Bytes, b: Bytes, v: Json, after: Bytes)
    requires Plain(name) && ParseValue(b) == Some((v, after)) && after != []
    ensures after[0] == CLOSE_OBJECT ==> ParseMembers(Name(name) + b) == Some(([Member(name, v)], after[1..]))
    ensures after[0] == COMMA_BYTE && ParseMembers(after[1..]).Some? ==>
              ParseMembers(Name(name) + b)
                == Some(([Member(name, v)] + ParseMembers(after[1..]).value.0, ParseMembers(after[1..]).value.1))
  {
    NameRead(name, b);
    assert ([COLON] + b)[1..] == b;
  }

  lemma ObjectRead(b: Bytes)
    requires ParseMembers(b).Some?
    ensures ParseValue([OPEN_OBJECT] + b) == Some((Object(ParseMembers(b).value.0), ParseMembers(b).value.1))
  {
    assert ([OPEN_OBJECT] + b)[1..] == b && ([OPEN_OBJECT] + b)[1] == b[0];
  }

  lemma WordRead(rest: Bytes)
    ensures ParseValue(Lit("null") + rest) == Some((Null, rest))
    ensures ParseValue(Lit("true") + rest) == Some((Flag(true), rest))
    ensures ParseValue(Lit("false") + rest) == Some((Flag(false), rest))
  {
    var n, t, f := Lit("null"), Lit("true"), Lit("false");
    assert (n + rest)[0] == 110 && (t + rest)[0] == 116 && (f + rest)[0] == 102;
    assert n[0] == 110 && t[0] == 116;
    assert (n + rest)[4..] == rest && (t + rest)[4..] == rest && (f + rest)[5..] == rest;
  }

  // The text reads as this value, whatever follows.
  ghost predicate Reads(text: Bytes, v: Json) {
    forall rest: Bytes {:trigger ParseValue(text + rest)} :: ParseValue(text + rest) == Some((v, rest))
  }

  lemma Regroup(a: Bytes, b: Bytes, c: Bytes)
    ensures (a + b) + c == a + (b + c)
  {
  }

  lemma CommaOff(text: Bytes, listed: Bytes, rest: Bytes)
    ensures (([COMMA_BYTE] + text + listed) + rest)[1..] == text + (listed + rest)
    ensures (([COMMA_BYTE] + text + listed) + rest)[0] == COMMA_BYTE
  {
    Regroup([COMMA_BYTE] + text, listed, rest);
    Regroup([COMMA_BYTE], text, listed + rest);
  }

  // Items with a comma before each.
  function Listed(texts: seq<Bytes>): Bytes {
    if texts == [] then [] else [COMMA_BYTE] + texts[0] + Listed(texts[1..])
  }

  lemma {:induction false} ItemsRead(text: Bytes, v: Json, texts: seq<Bytes>, vs: seq<Json>, rest: Bytes)
    requires Reads(text, v) && |texts| == |vs| && forall i :: 0 <= i < |vs| ==> Reads(texts[i], vs[i])
    ensures ParseItems(text + (Listed(texts) + ([CLOSE_LIST] + rest))) == Some(([v] + vs, rest))
    decreases |texts|
  {
    var after := Listed(texts) + ([CLOSE_LIST] + rest);
    assert ParseValue(text + after) == Some((v, after));
    if texts == [] {
      assert after == [CLOSE_LIST] + rest && after[1..] == rest && [v] + vs == [v];
    } else {
      ItemsRead(texts[0], vs[0], texts[1..], vs[1..], rest);
      CommaOff(texts[0], Listed(texts[1..]), [CLOSE_LIST] + rest);
      assert vs == [vs[0]] + vs[1..];
    }
  }

  // A printed array: the first item, the others behind commas, the bracket.
  function Joined(texts: seq<Bytes>): Bytes {
    if texts == [] then [] else texts[0] + Listed(texts[1..])
  }

  lemma ListRead(texts: seq<Bytes>, vs: seq<Json>, rest: Bytes)
    requires |texts| == |vs| && forall i :: 0 <= i < |vs| ==> Reads(texts[i], vs[i])
    ensures ParseValue([OPEN_LIST] + (Joined(texts) + ([CLOSE_LIST] + rest))) == Some((List(vs), rest))
  {
    var b := Joined(texts) + ([CLOSE_LIST] + rest);
    if texts == [] {
      assert b == [CLOSE_LIST] + rest && ([OPEN_LIST] + b)[2..] == rest && ([OPEN_LIST] + b)[1] == CLOSE_LIST;
    } else {
      ItemsRead(texts[0], vs[0], texts[1..], vs[1..], rest);
      Regroup(texts[0], Listed(texts[1..]), [CLOSE_LIST] + rest);
      assert vs == [vs[0]] + vs[1..];
      NotClosing(texts[0], vs[0], Listed(texts[1..]) + ([CLOSE_LIST] + rest));
      ListOpens(b);
    }
  }

  lemma ListOpens(b: Bytes)
    requires ParseItems(b).Some? && b[0] != CLOSE_LIST
    ensures ParseValue([OPEN_LIST] + b) == Some((List(ParseItems(b).value.0), ParseItems(b).value.1))
  {
    assert ([OPEN_LIST] + b)[1..] == b && ([OPEN_LIST] + b)[1] == b[0];
  }

  // No value begins like the end of an array.
  lemma NotClosing(text: Bytes, v: Json, rest: Bytes)
    requires Reads(text, v)
    ensures text + rest != [] && (text + rest)[0] != CLOSE_LIST
  {
    assert ParseValue(text + rest) == Some((v, rest));
    var n, t, f := Lit("null"), Lit("true"), Lit("false");
    assert n[0] == 110 && t[0] == 116 && f[0] == 102;
  }
}
