/** The canonical Seal bytes read back (internal/canonical/seal.go:87-106). */
module SealReading {
  import opened Ids
  import opened Utf8
  import opened JsonReader
  import opened Sorting
  import opened CanonicalSeal

  // ------------------------------------------------ the document of a payload

  function ContentJson(c: ContentRef): Json {
    Object([Member(Lit("store"), Str(c.store)), Member(Lit("type"), Str(c.kind)), Member(Lit("id"), Str(c.id))])
  }

  function NamedJson(a: NamedBlob): Json {
    Object([Member(Lit("name"), Str(a.name)), Member(Lit("media_type"), Str(a.mediaType)),
            Member(Lit("blob"), ContentJson(a.blob))])
  }

  function LinkJson(l: Link): Json {
    Object([Member(Lit("target_seal"), Str(l.target)), Member(Lit("message"), Str(l.message))])
  }

  function Each<T>(items: seq<T>, json: T -> Json): (r: seq<Json>)
    ensures |r| == |items| && forall i :: 0 <= i < |items| ==> r[i] == json(items[i])
  {
    seq(|items|, i requires 0 <= i < |items| => json(items[i]))
  }

  // The members of a Seal object, in their order.
  function SealJson(p: Payload): Json {
    Object([Member(Lit("schema"), Str(p.schema)),
            Member(Lit("parent_revision"), if p.parent.Some? then Str(p.parent.value) else Null),
            Member(Lit("content"), ContentJson(p.content)),
            Member(Lit("attachments"), List(Each(p.attachments, NamedJson))),
            Member(Lit("links"), List(Each(p.links, LinkJson))),
            Member(Lit("root"), Flag(p.root)),
            Member(Lit("draft"), Flag(p.draft))])
  }

  // ------------------------------------------------------- the keys, as texts

  lemma ContentKeys()
    ensures STORE_KEY == [OPEN_OBJECT] + Name(Lit("store")) && TYPE_KEY == [COMMA_BYTE] + Name(Lit("type"))
    ensures ID_KEY == [COMMA_BYTE] + Name(Lit("id")) && CLOSE == [CLOSE_OBJECT]
    ensures Plain(Lit("store")) && Plain(Lit("type")) && Plain(Lit("id"))
  {
  }

  lemma NamedKeys()
    ensures NAME_KEY == [OPEN_OBJECT] + Name(Lit("name"))
    ensures MEDIA_TYPE_KEY == [COMMA_BYTE] + Name(Lit("media_type"))
    ensures BLOB_KEY == [COMMA_BYTE] + Name(Lit("blob")) && CLOSE == [CLOSE_OBJECT]
    ensures Plain(Lit("name")) && Plain(Lit("media_type")) && Plain(Lit("blob"))
  {
  }

  lemma LinkKeys()
    ensures TARGET_KEY == [OPEN_OBJECT] + Name(Lit("target_seal"))
    ensures MESSAGE_KEY == [COMMA_BYTE] + Name(Lit("message")) && CLOSE == [CLOSE_OBJECT]
    ensures Plain(Lit("target_seal")) && Plain(Lit("message"))
  {
  }

  lemma HeadKeys()
    ensures SCHEMA_KEY == [OPEN_OBJECT] + Name(Lit("schema"))
    ensures PARENT_KEY == [COMMA_BYTE] + Name(Lit("parent_revision"))
    ensures CONTENT_KEY == [COMMA_BYTE] + Name(Lit("content"))
    ensures Plain(Lit("schema")) && Plain(Lit("parent_revision")) && Plain(Lit("content"))
  {
  }

  lemma AttachmentsKeys()
    ensures ATTACHMENTS_KEY == [COMMA_BYTE] + Name(Lit("attachments")) + [OPEN_LIST] && Plain(Lit("attachments"))
  {
  }

  lemma TailKeys()
    ensures LINKS_KEY == [CLOSE_LIST] + ([COMMA_BYTE] + Name(Lit("links")) + [OPEN_LIST])
    ensures ROOT_KEY == [CLOSE_LIST] + ([COMMA_BYTE] + Name(Lit("root")))
    ensures DRAFT_KEY == [COMMA_BYTE] + Name(Lit("draft")) && CLOSE == [CLOSE_OBJECT]
    ensures NULL == Lit("null") && TRUE == Lit("true") && FALSE == Lit("false")
    ensures Plain(Lit("links")) && Plain(Lit("root")) && Plain(Lit("draft"))
  {
  }

  // --------------------------------------------------------- reading members

  // The text holds these members and ends the object, leaving the rest.
  ghost predicate HasMembers(b: Bytes, ms: seq<Member>, rest: Bytes) {
    ParseMembers(b) == Some((ms, rest))
  }

  lemma LastMember(name: Bytes, b: Bytes, v: Json, rest: Bytes)
    requires Plain(name) && ParseValue(b) == Some((v, CLOSE + rest)) && CLOSE == [CLOSE_OBJECT]
    ensures HasMembers(Name(name) + b, [Member(name, v)], rest)
  {
    MemberRead(name, b, v, CLOSE + rest);
    assert (CLOSE + rest)[1..] == rest;
  }

  // A member followed by the comma and the name of the next one.
  lemma NextMember(name: Bytes, b: Bytes, v: Json, more: Bytes, ms: seq<Member>, rest: Bytes)
    requires Plain(name) && ParseValue(b) == Some((v, [COMMA_BYTE] + more)) && HasMembers(more, ms, rest)
    ensures HasMembers(Name(name) + b, [Member(name, v)] + ms, rest)
  {
    MemberRead(name, b, v, [COMMA_BYTE] + more);
    assert ([COMMA_BYTE] + more)[1..] == more;
  }

  lemma Opened(key: Bytes, name: Bytes, b: Bytes, ms: seq<Member>, rest: Bytes)
    requires key == [OPEN_OBJECT] + Name(name) && HasMembers(Name(name) + b, ms, rest)
    ensures ParseValue(key + b) == Some((Object(ms), rest))
  {
    ObjectRead(Name(name) + b);
    Regroup([OPEN_OBJECT], Name(name), b);
  }

  // Five pieces, one after the other.
  lemma PrintedFive(a: Piece, b: Piece, c: Piece, d: Piece, e: Piece, rest: Bytes)
    ensures Print([a, b, c, d, e]) + rest
              == PieceBytes(a) + (PieceBytes(b) + (PieceBytes(c) + (PieceBytes(d) + (PieceBytes(e) + rest))))
  {
    PrintFive([], a, b, c, d, e);
    var p, q, r, s, t := PieceBytes(a), PieceBytes(b), PieceBytes(c), PieceBytes(d), PieceBytes(e);
    assert [] + p == p && [] + Print([a, b, c, d, e]) == Print([a, b, c, d, e]);
    Regroup(p + q + r + s, t, rest);
    Regroup(p + q + r, s, t + rest);
    Regroup(p + q, r, s + (t + rest));
    Regroup(p, q, r + (s + (t + rest)));
  }

  // A string member and the key of the next one.
  lemma StringThen(name: Bytes, v: Bytes, key: Bytes, next: Bytes, b: Bytes, ms: seq<Member>, rest: Bytes)
    requires Plain(name) && ValidText(v) && key == [COMMA_BYTE] + Name(next) && HasMembers(Name(next) + b, ms, rest)
    ensures HasMembers(Name(name) + (PieceBytes(Text(v)) + (key + b)), [Member(name, Str(v))] + ms, rest)
  {
    Regroup([COMMA_BYTE], Name(next), b);
    TextRead(v, key + b);
    NextMember(name, PieceBytes(Text(v)) + (key + b), Str(v), Name(next) + b, ms, rest);
  }

  lemma StringLast(name: Bytes, v: Bytes, rest: Bytes)
    requires Plain(name) && ValidText(v) && CLOSE == [CLOSE_OBJECT]
    ensures HasMembers(Name(name) + (PieceBytes(Text(v)) + (CLOSE + rest)), [Member(name, Str(v))], rest)
  {
    TextRead(v, CLOSE + rest);
    LastMember(name, PieceBytes(Text(v)) + (CLOSE + rest), Str(v), rest);
  }

  // ------------------------------------------------------- the parts of a Seal

  lemma ContentTexts(c: ContentRef)
    requires ValidContent(c)
    ensures ValidText(c.store) && ValidText(c.kind) && ValidText(c.id)
  {
    AsciiValid(c.store);
    AsciiValid(c.kind);
    AsciiValid(c.id);
  }

  lemma ContentRead(c: ContentRef, rest: Bytes)
    requires ValidContent(c)
    ensures ParseValue(Print(ContentPieces(c)) + rest) == Some((ContentJson(c), rest))
  {
    ContentTexts(c);
    ContentKeys();
    var store, kind, id := Member(Lit("store"), Str(c.store)), Member(Lit("type"), Str(c.kind)),
                           Member(Lit("id"), Str(c.id));
    var third := PieceBytes(Text(c.id)) + (CLOSE + rest);
    var second := PieceBytes(Text(c.kind)) + (ID_KEY + third);
    var first := PieceBytes(Text(c.store)) + (TYPE_KEY + second);
    StringLast(Lit("id"), c.id, rest);
    StringThen(Lit("type"), c.kind, ID_KEY, Lit("id"), third, [id], rest);
    StringThen(Lit("store"), c.store, TYPE_KEY, Lit("type"), second, [kind] + [id], rest);
    Opened(STORE_KEY, Lit("store"), first, [store] + ([kind] + [id]), rest);
    ContentPrinted(c, rest);
    assert [store] + ([kind] + [id]) == [store, kind, id];
  }

  lemma ContentPrinted(c: ContentRef, rest: Bytes)
    ensures Print(ContentPieces(c)) + rest
              == STORE_KEY + (PieceBytes(Text(c.store)) + (TYPE_KEY + (PieceBytes(Text(c.kind)) +
                  (ID_KEY + (PieceBytes(Text(c.id)) + (CLOSE + rest))))))
  {
    var last := [Text(c.id), Key(CLOSE)];
    PrintAppend(ContentStart(c), last);
    Regroup(Print(ContentStart(c)), Print(last), rest);
    PrintPair([], Text(c.id), Key(CLOSE));
    assert [] + PieceBytes(Text(c.id)) == PieceBytes(Text(c.id)) && [] + Print(last) == Print(last);
    Regroup(PieceBytes(Text(c.id)), CLOSE, rest);
    PrintedFive(Key(STORE_KEY), Text(c.store), Key(TYPE_KEY), Text(c.kind), Key(ID_KEY), Print(last) + rest);
  }

  lemma NamedRead(a: NamedBlob, rest: Bytes)
    requires ValidNamed(a)
    ensures ParseValue(Print(NamedPieces(a)) + rest) == Some((NamedJson(a), rest))
  {
    NamedKeys();
    var name, media, blob := Member(Lit("name"), Str(a.name)), Member(Lit("media_type"), Str(a.mediaType)),
                             Member(Lit("blob"), ContentJson(a.blob));
    var third := Print(ContentPieces(a.blob)) + (CLOSE + rest);
    var second := PieceBytes(Text(a.mediaType)) + (BLOB_KEY + third);
    var first := PieceBytes(Text(a.name)) + (MEDIA_TYPE_KEY + second);
    ContentRead(a.blob, CLOSE + rest);
    LastMember(Lit("blob"), third, ContentJson(a.blob), rest);
    StringThen(Lit("media_type"), a.mediaType, BLOB_KEY, Lit("blob"), third, [blob], rest);
    StringThen(Lit("name"), a.name, MEDIA_TYPE_KEY, Lit("media_type"), second, [media] + [blob], rest);
    Opened(NAME_KEY, Lit("name"), first, [name] + ([media] + [blob]), rest);
    NamedPrinted(a, rest);
    assert [name] + ([media] + [blob]) == [name, media, blob];
  }

  lemma NamedPrinted(a: NamedBlob, rest: Bytes)
    ensures Print(NamedPieces(a)) + rest
              == NAME_KEY + (PieceBytes(Text(a.name)) + (MEDIA_TYPE_KEY + (PieceBytes(Text(a.mediaType)) +
                  (BLOB_KEY + (Print(ContentPieces(a.blob)) + (CLOSE + rest))))))
  {
    var start, blob := NamedStart(a), ContentPieces(a.blob);
    PrintOne(start + blob, Key(CLOSE));
    PrintAppend(start, blob);
    Regroup(Print(start) + Print(blob), CLOSE, rest);
    Regroup(Print(start), Print(blob), CLOSE + rest);
    PrintedFive(Key(NAME_KEY), Text(a.name), Key(MEDIA_TYPE_KEY), Text(a.mediaType), Key(BLOB_KEY),
      Print(blob) + (CLOSE + rest));
  }

  lemma LinkRead(l: Link, rest: Bytes)
    requires ValidLink(l)
    ensures ParseValue(Print(LinkPieces(l)) + rest) == Some((LinkJson(l), rest))
  {
    AsciiValid(l.target);
    LinkKeys();
    var target, message := Member(Lit("target_seal"), Str(l.target)), Member(Lit("message"), Str(l.message));
    var second := PieceBytes(Text(l.message)) + (CLOSE + rest);
    StringLast(Lit("message"), l.message, rest);
    StringThen(Lit("target_seal"), l.target, MESSAGE_KEY, Lit("message"), second, [message], rest);
    Opened(TARGET_KEY, Lit("target_seal"), PieceBytes(Text(l.target)) + (MESSAGE_KEY + second), [target] + [message],
      rest);
    PrintedFive(Key(TARGET_KEY), Text(l.target), Key(MESSAGE_KEY), Text(l.message), Key(CLOSE), rest);
    assert [target] + [message] == [target, message];
  }

  // ---- arrays

  function Texts<T>(items: seq<T>, item: T -> seq<Piece>): (r: seq<Bytes>)
    ensures |r| == |items| && forall i :: 0 <= i < |items| ==> r[i] == Print(item(items[i]))
  {
    seq(|items|, i requires 0 <= i < |items| => Print(item(items[i])))
  }

  lemma {:induction false} MorePrinted<T>(items: seq<T>, item: T -> seq<Piece>)
    ensures Print(MorePieces(items, item)) == Listed(Texts(items, item))
  {
    if items != [] {
      MorePrinted(items[1..], item);
      PrintAppend([Key(COMMA)] + item(items[0]), MorePieces(items[1..], item));
      PrintCons(Key(COMMA), item(items[0]));
      assert Texts(items, item)[1..] == Texts(items[1..], item) && COMMA == [COMMA_BYTE];
    }
  }

  lemma ListPrinted<T>(items: seq<T>, item: T -> seq<Piece>)
    ensures Print(ListPieces(items, item)) == Joined(Texts(items, item))
  {
    if items != [] {
      ListFront(items, item);
      PrintAppend(item(items[0]), MorePieces(items[1..], item));
      MorePrinted(items[1..], item);
      assert Texts(items, item)[1..] == Texts(items[1..], item);
    }
  }

  lemma AttachmentsRead(attachments: seq<NamedBlob>, rest: Bytes)
    requires forall i :: 0 <= i < |attachments| ==> ValidNamed(attachments[i])
    ensures ParseValue([OPEN_LIST] + (Print(ListPieces(attachments, NamedPieces)) + ([CLOSE_LIST] + rest)))
              == Some((List(Each(attachments, NamedJson)), rest))
  {
    var texts, vs := Texts(attachments, NamedPieces), Each(attachments, NamedJson);
    forall i | 0 <= i < |vs| ensures Reads(texts[i], vs[i]) {
      forall t: Bytes ensures ParseValue(texts[i] + t) == Some((vs[i], t)) {
        NamedRead(attachments[i], t);
      }
    }
    ListPrinted(attachments, NamedPieces);
    ListRead(texts, vs, rest);
  }

  lemma LinksRead(links: seq<Link>, rest: Bytes)
    requires forall i :: 0 <= i < |links| ==> ValidLink(links[i])
    ensures ParseValue([OPEN_LIST] + (Print(ListPieces(links, LinkPieces)) + ([CLOSE_LIST] + rest)))
              == Some((List(Each(links, LinkJson)), rest))
  {
    var texts, vs := Texts(links, LinkPieces), Each(links, LinkJson);
    forall i | 0 <= i < |vs| ensures Reads(texts[i], vs[i]) {
      forall t: Bytes ensures ParseValue(texts[i] + t) == Some((vs[i], t)) {
        LinkRead(links[i], t);
      }
    }
    ListPrinted(links, LinkPieces);
    ListRead(texts, vs, rest);
  }

  // ---- the whole Seal, from its end

  function FlagsText(p: Payload, rest: Bytes): Bytes {
    PieceBytes(BoolPiece(p.root)) + (DRAFT_KEY + (PieceBytes(BoolPiece(p.draft)) + (CLOSE + rest)))
  }

  function LinksText(p: Payload, rest: Bytes): Bytes {
    Print(ListPieces(p.links, LinkPieces)) + (ROOT_KEY + FlagsText(p, rest))
  }

  function AttachmentsText(p: Payload, rest: Bytes): Bytes {
    Print(ListPieces(p.attachments, NamedPieces)) + (LINKS_KEY + LinksText(p, rest))
  }

  function ContentText(p: Payload, rest: Bytes): Bytes {
    Print(ContentPieces(p.content)) + (ATTACHMENTS_KEY + AttachmentsText(p, rest))
  }

  function ParentText(p: Payload, rest: Bytes): Bytes {
    PieceBytes(ParentPiece(p.parent)) + (CONTENT_KEY + ContentText(p, rest))
  }

  function SchemaText(p: Payload, rest: Bytes): Bytes {
    PieceBytes(Text(p.schema)) + (PARENT_KEY + ParentText(p, rest))
  }

  lemma FlagsPrinted(p: Payload, rest: Bytes)
    ensures Print(FlagPieces(p)) + rest == ROOT_KEY + FlagsText(p, rest)
  {
    PrintedFive(Key(ROOT_KEY), BoolPiece(p.root), Key(DRAFT_KEY), BoolPiece(p.draft), Key(CLOSE), rest);
  }

  lemma HeadPrinted(p: Payload, rest: Bytes)
    ensures Print(HeadPieces(p)) + AttachmentsText(p, rest) == SCHEMA_KEY + SchemaText(p, rest)
  {
    var start, content := HeadStart(p), ContentPieces(p.content);
    PrintOne(start + content, Key(ATTACHMENTS_KEY));
    PrintAppend(start, content);
    Regroup(Print(start) + Print(content), ATTACHMENTS_KEY, AttachmentsText(p, rest));
    Regroup(Print(start), Print(content), ATTACHMENTS_KEY + AttachmentsText(p, rest));
    PrintedFive(Key(SCHEMA_KEY), Text(p.schema), Key(PARENT_KEY), ParentPiece(p.parent), Key(CONTENT_KEY),
      ContentText(p, rest));
  }

  lemma SealPrinted(p: Payload, rest: Bytes)
    ensures SealBytes(p) + rest == SCHEMA_KEY + SchemaText(p, rest)
  {
    SealCut(p);
    var atts, links := Print(ListPieces(p.attachments, NamedPieces)), Print(ListPieces(p.links, LinkPieces));
    Regroup(Print(HeadPieces(p)), AttachmentsOn(p), rest);
    Regroup(atts, LINKS_KEY + LinksOn(p), rest);
    Regroup(LINKS_KEY, LinksOn(p), rest);
    Regroup(links, Print(FlagPieces(p)), rest);
    FlagsPrinted(p, rest);
    HeadPrinted(p, rest);
  }

  lemma BoolRead(v: bool, rest: Bytes)
    ensures ParseValue(PieceBytes(BoolPiece(v)) + rest) == Some((Flag(v), rest))
  {
    TailKeys();
    WordRead(rest);
  }

  lemma FlagsRead(p: Payload, rest: Bytes)
    ensures HasMembers(Name(Lit("root")) + FlagsText(p, rest),
                       [Member(Lit("root"), Flag(p.root)), Member(Lit("draft"), Flag(p.draft))], rest)
  {
    TailKeys();
    var draft := Member(Lit("draft"), Flag(p.draft));
    var second := PieceBytes(BoolPiece(p.draft)) + (CLOSE + rest);
    BoolRead(p.draft, CLOSE + rest);
    LastMember(Lit("draft"), second, Flag(p.draft), rest);
    Regroup([COMMA_BYTE], Name(Lit("draft")), second);
    BoolRead(p.root, DRAFT_KEY + second);
    NextMember(Lit("root"), FlagsText(p, rest), Flag(p.root), Name(Lit("draft")) + second, [draft], rest);
    assert [Member(Lit("root"), Flag(p.root))] + [draft] == [Member(Lit("root"), Flag(p.root)), draft];
  }

  // An array behind its name, and the key that ends it.
  lemma ArrayThen(name: Bytes, v: Json, key: Bytes, next: Bytes, list: Bytes, b: Bytes, ms: seq<Member>, rest: Bytes)
    requires Plain(name) && key == [CLOSE_LIST] + ([COMMA_BYTE] + Name(next)) && HasMembers(Name(next) + b, ms, rest)
    requires ParseValue([OPEN_LIST] + (list + ([CLOSE_LIST] + ([COMMA_BYTE] + (Name(next) + b)))))
               == Some((v, [COMMA_BYTE] + (Name(next) + b)))
    ensures HasMembers(Name(name) + ([OPEN_LIST] + (list + (key + b))), [Member(name, v)] + ms, rest)
  {
    Regroup([CLOSE_LIST], [COMMA_BYTE] + Name(next), b);
    Regroup([COMMA_BYTE], Name(next), b);
    NextMember(name, [OPEN_LIST] + (list + (key + b)), v, Name(next) + b, ms, rest);
  }

  ghost function FlagMembers(p: Payload): seq<Member> {
    [Member(Lit("root"), Flag(p.root)), Member(Lit("draft"), Flag(p.draft))]
  }

  ghost function LinksMembers(p: Payload): seq<Member> {
    [Member(Lit("links"), List(Each(p.links, LinkJson)))] + FlagMembers(p)
  }

  ghost function AttachmentsMembers(p: Payload): seq<Member> {
    [Member(Lit("attachments"), List(Each(p.attachments, NamedJson)))] + LinksMembers(p)
  }

  ghost function ContentMembers(p: Payload): seq<Member> {
    [Member(Lit("content"), ContentJson(p.content))] + AttachmentsMembers(p)
  }

  ghost function ParentMembers(p: Payload): seq<Member> {
    [Member(Lit("parent_revision"), if p.parent.Some? then Str(p.parent.value) else Null)] + ContentMembers(p)
  }

  lemma LinksPart(p: Payload, rest: Bytes)
    requires forall i :: 0 <= i < |p.links| ==> ValidLink(p.links[i])
    ensures HasMembers(Name(Lit("links")) + ([OPEN_LIST] + LinksText(p, rest)), LinksMembers(p), rest)
  {
    TailKeys();
    FlagsRead(p, rest);
    LinksRead(p.links, [COMMA_BYTE] + (Name(Lit("root")) + FlagsText(p, rest)));
    ArrayThen(Lit("links"), List(Each(p.links, LinkJson)), ROOT_KEY, Lit("root"),
      Print(ListPieces(p.links, LinkPieces)), FlagsText(p, rest), FlagMembers(p), rest);
  }

  lemma AttachmentsPart(p: Payload, rest: Bytes)
    requires forall i :: 0 <= i < |p.links| ==> ValidLink(p.links[i])
    requires forall i :: 0 <= i < |p.attachments| ==> ValidNamed(p.attachments[i])
    ensures HasMembers(Name(Lit("attachments")) + ([OPEN_LIST] + AttachmentsText(p, rest)), AttachmentsMembers(p), rest)
  {
    TailKeys();
    AttachmentsKeys();
    LinksPart(p, rest);
    var key := [CLOSE_LIST] + ([COMMA_BYTE] + Name(Lit("links")));
    var b := [OPEN_LIST] + LinksText(p, rest);
    AttachmentsRead(p.attachments, [COMMA_BYTE] + (Name(Lit("links")) + b));
    ArrayThen(Lit("attachments"), List(Each(p.attachments, NamedJson)), key, Lit("links"),
      Print(ListPieces(p.attachments, NamedPieces)), b, LinksMembers(p), rest);
    LinksKeyCut(LinksText(p, rest));
  }

  lemma LinksKeyCut(b: Bytes)
    ensures LINKS_KEY + b == ([CLOSE_LIST] + ([COMMA_BYTE] + Name(Lit("links")))) + ([OPEN_LIST] + b)
  {
    TailKeys();
    var name := [COMMA_BYTE] + Name(Lit("links"));
    Regroup([CLOSE_LIST], name + [OPEN_LIST], b);
    Regroup(name, [OPEN_LIST], b);
    Regroup([CLOSE_LIST], name, [OPEN_LIST] + b);
  }

  lemma ContentPart(p: Payload, rest: Bytes)
    requires ValidContent(p.content)
    requires HasMembers(Name(Lit("attachments")) + ([OPEN_LIST] + AttachmentsText(p, rest)), AttachmentsMembers(p),
              rest)
    ensures HasMembers(Name(Lit("content")) + ContentText(p, rest), ContentMembers(p), rest)
  {
    HeadKeys();
    AttachmentsKeys();
    var b := AttachmentsText(p, rest);
    ContentRead(p.content, ATTACHMENTS_KEY + b);
    Regroup([COMMA_BYTE] + Name(Lit("attachments")), [OPEN_LIST], b);
    Regroup([COMMA_BYTE], Name(Lit("attachments")), [OPEN_LIST] + b);
    NextMember(Lit("content"), ContentText(p, rest), ContentJson(p.content),
      Name(Lit("attachments")) + ([OPEN_LIST] + b), AttachmentsMembers(p), rest);
  }

  lemma ParentRead(parent: Option<Bytes>, rest: Bytes)
    requires parent.Some? ==> ValidId(parent.value)
    ensures ParseValue(PieceBytes(ParentPiece(parent)) + rest)
              == Some((if parent.Some? then Str(parent.value) else Null, rest))
  {
    if parent.Some? {
      AsciiValid(parent.value);
      TextRead(parent.value, rest);
    } else {
      TailKeys();
      WordRead(rest);
    }
  }

  lemma ParentPart(p: Payload, rest: Bytes)
    requires p.parent.Some? ==> ValidId(p.parent.value)
    requires HasMembers(Name(Lit("content")) + ContentText(p, rest), ContentMembers(p), rest)
    ensures HasMembers(Name(Lit("parent_revision")) + ParentText(p, rest), ParentMembers(p), rest)
  {
    HeadKeys();
    var b := ContentText(p, rest);
    ParentRead(p.parent, CONTENT_KEY + b);
    Regroup([COMMA_BYTE], Name(Lit("content")), b);
    NextMember(Lit("parent_revision"), ParentText(p, rest), if p.parent.Some? then Str(p.parent.value) else Null,
      Name(Lit("content")) + b, ContentMembers(p), rest);
  }

  lemma SchemaPart(p: Payload, rest: Bytes)
    requires ValidText(p.schema)
    requires HasMembers(Name(Lit("parent_revision")) + ParentText(p, rest), ParentMembers(p), rest)
    ensures ParseValue(SCHEMA_KEY + SchemaText(p, rest)) == Some((SealJson(p), rest))
  {
    HeadKeys();
    var schema := Member(Lit("schema"), Str(p.schema));
    StringThen(Lit("schema"), p.schema, PARENT_KEY, Lit("parent_revision"), ParentText(p, rest), ParentMembers(p),
      rest);
    Opened(SCHEMA_KEY, Lit("schema"), SchemaText(p, rest), [schema] + ParentMembers(p), rest);
    MembersInOrder(p);
  }

  lemma SchemaValid(p: Payload)
    requires p.schema == SEAL_SCHEMA
    ensures ValidText(p.schema)
  {
    AsciiValid(p.schema);
  }

  lemma BodyRead(p: Payload, rest: Bytes)
    requires ValidPayload(p)
    ensures HasMembers(Name(Lit("parent_revision")) + ParentText(p, rest), ParentMembers(p), rest)
  {
    AttachmentsPart(p, rest);
    ContentPart(p, rest);
    ParentPart(p, rest);
  }

  // The printed bytes of a valid payload are the JSON object with its members in order.
  lemma SealRead(p: Payload, rest: Bytes)
    requires ValidPayload(p)
    ensures ParseValue(SealBytes(p) + rest) == Some((SealJson(p), rest))
  {
    BodyRead(p, rest);
    SchemaValid(p);
    SchemaPart(p, rest);
    SealPrinted(p, rest);
  }

  lemma MembersInOrder(p: Payload)
    ensures Object([Member(Lit("schema"), Str(p.schema))] + ParentMembers(p)) == SealJson(p)
  {
    var ms := [Member(Lit("schema"), Str(p.schema))] + ParentMembers(p);
    assert |ms| == 7 && ms == SealJson(p).members;
  }

  // ------------------------------------------------------ payload from document

  function ReadContent(j: Json): Option<ContentRef> {
    match j
    case Object(ms) =>
      if |ms| == 3 && ms[0].name == Lit("store") && ms[1].name == Lit("type") && ms[2].name == Lit("id")
         && ms[0].value.Str? && ms[1].value.Str? && ms[2].value.Str?
      then Some(ContentRef(ms[0].value.text, ms[1].value.text, ms[2].value.text))
      else None
    case _ => None
  }

  function ReadNamed(j: Json): Option<NamedBlob> {
    match j
    case Object(ms) =>
      if |ms| == 3 && ms[0].name == Lit("name") && ms[1].name == Lit("media_type") && ms[2].name == Lit("blob")
         && ms[0].value.Str? && ms[1].value.Str? && ReadContent(ms[2].value).Some?
      then Some(NamedBlob(ms[0].value.text, ms[1].value.text, ReadContent(ms[2].value).value))
      else None
    case _ => None
  }

  function ReadLink(j: Json): Option<Link> {
    match j
    case Object(ms) =>
      if |ms| == 2 && ms[0].name == Lit("target_seal") && ms[1].name == Lit("message")
         && ms[0].value.Str? && ms[1].value.Str?
      then Some(Link(ms[0].value.text, ms[1].value.text))
      else None
    case _ => None
  }

  function ReadEach<T>(items: seq<Json>, read: Json -> Option<T>): Option<seq<T>> {
    if items == [] then Some([])
    else
      var first, more := read(items[0]), ReadEach(items[1..], read);
      if first.None? || more.None? then None else Some([first.value] + more.value)
  }

  lemma {:induction false} EachRead<T(!new)>(items: seq<T>, json: T -> Json, read: Json -> Option<T>)
    requires forall x: T {:trigger json(x)} :: read(json(x)) == Some(x)
    ensures ReadEach(Each(items, json), read) == Some(items)
  {
    if items != [] {
      EachRead(items[1..], json, read);
      assert Each(items, json)[1..] == Each(items[1..], json) && items == [items[0]] + items[1..];
    }
  }

  function NamesOf(ms: seq<Member>): seq<Bytes> {
    seq(|ms|, i requires 0 <= i < |ms| => ms[i].name)
  }

  function SealNames(): seq<Bytes> {
    [Lit("schema"), Lit("parent_revision"), Lit("content"), Lit("attachments"), Lit("links"), Lit("root"), Lit("draft")]
  }

  function ReadParent(j: Json): Option<Option<Bytes>> {
    match j
    case Null => Some(None)
    case Str(text) => Some(Some(text))
    case _ => None
  }

  function ReadPayload(j: Json): Option<Payload> {
    if !j.Object? || NamesOf(j.members) != SealNames() then None
    else
      var ms := j.members;
      assert |ms| == 7 by { assert |NamesOf(ms)| == |SealNames()|; }
      var content, parent := ReadContent(ms[2].value), ReadParent(ms[1].value);
      if !ms[0].value.Str? || !ms[3].value.List? || !ms[4].value.List? || !ms[5].value.Flag? || !ms[6].value.Flag?
         || content.None? || parent.None? then None
      else
        var attachments, links := ReadEach(ms[3].value.items, ReadNamed), ReadEach(ms[4].value.items, ReadLink);
        if attachments.None? || links.None? then None
        else Some(Payload(ms[0].value.text, parent.value, content.value, attachments.value, links.value,
                          ms[5].value.holds, ms[6].value.holds))
  }

  lemma PayloadRead(p: Payload)
    ensures ReadPayload(SealJson(p)) == Some(p)
  {
    EachRead(p.attachments, NamedJson, ReadNamed);
    EachRead(p.links, LinkJson, ReadLink);
    assert NamesOf(SealJson(p).members) == SealNames();
  }

  // A decoder for the form the encoder prints: one JSON object and nothing behind it.
  function ReadSeal(data: Bytes): Option<Payload> {
    var read := ParseValue(data);
    if read.None? || read.value.1 != [] then None else ReadPayload(read.value.0)
  }

  // What was printed reads back as it was.
  lemma ReadPrinted(p: Payload)
    requires ValidPayload(p)
    ensures ParseValue(SealBytes(p)) == Some((SealJson(p), [])) && ReadSeal(SealBytes(p)) == Some(p)
  {
    SealRead(p, []);
    assert SealBytes(p) + [] == SealBytes(p);
    PayloadRead(p);
  }

  // EncodeSeal. It refuses exactly the invalid payloads; otherwise it prints one JSON object
  // that holds the normalised payload, member by member.
  method EncodeSeal(p: Payload) returns (res: Result<Bytes, SealError>)
    ensures res.Success? <==> ValidPayload(p)
    ensures res.Failure? ==> Defect(p, res.error)
    ensures res.Success? ==> res.value == SealBytes(Normalized(p))
    ensures res.Success? ==> ParseValue(res.value) == Some((SealJson(Normalized(p)), []))
    ensures res.Success? ==> ReadSeal(res.value) == Some(Normalized(p))
  {
    var normalized := NormalizeSeal(p);
    if normalized.Failure? {
      return Failure(normalized.error);
    }
    NormalizedValid(p);
    AsciiValid(p.schema);
    var printed := PrintSeal(normalized.value);
    ReadPrinted(normalized.value);
    res := Success(printed);
  }

  // ------------------------------------------------------------- identities

  // Two payloads printed alike are the same payload.
  lemma SealBytesUnique(p: Payload, q: Payload)
    requires ValidPayload(p) && ValidPayload(q) && SealBytes(p) == SealBytes(q)
    ensures p == q
  {
    ReadPrinted(p);
    ReadPrinted(q);
  }

  // Valid payloads have the same canonical bytes, and so the same identity, exactly when
  // they differ in nothing but the order of links and attachments.
  lemma SameBytesIffSameButOrder(p: Payload, q: Payload)
    requires ValidPayload(p) && ValidPayload(q)
    ensures SealBytes(Normalized(p)) == SealBytes(Normalized(q)) <==> SameButOrder(p, q)
  {
    NormalizedSame(p, q);
    NormalizedValid(p);
    NormalizedValid(q);
    if SealBytes(Normalized(p)) == SealBytes(Normalized(q)) {
      SealBytesUnique(Normalized(p), Normalized(q));
    }
  }

  // -------------------------------------------------------------- decoding

  // What the JSON decoder is relied on for: reading back what the encoder printed.
  ghost predicate Faithful(parse: Bytes -> Option<Payload>) {
    forall n: Payload {:trigger SealBytes(n)} :: ValidPayload(n) && Normalized(n) == n ==>
        parse(SealBytes(n)) == Some(n)
  }

  // Reading the one object the encoder prints is enough.
  lemma ReaderFaithful()
    ensures Faithful(ReadSeal)
  {
    forall n: Payload | ValidPayload(n) && Normalized(n) == n ensures ReadSeal(SealBytes(n)) == Some(n) {
      ReadPrinted(n);
    }
  }

  // Re-encoding what was decoded gives back the very bytes.
  ghost predicate Accepts(data: Bytes, parse: Bytes -> Option<Payload>, p: Payload) {
    parse(data) == Some(p) && ValidPayload(p) && data == SealBytes(Normalized(p))
  }

  // DecodeSeal with any decoder.
  method DecodeSeal(data: Bytes, parse: Bytes -> Option<Payload>) returns (res: Option<Payload>)
    ensures forall p :: res == Some(p) <==> Accepts(data, parse, p)
  {
    var payload := parse(data);
    if payload.None? {
      return None;
    }
    var canonical := EncodeSeal(payload.value);
    if canonical.Failure? || canonical.value != data {
      return None;
    }
    res := payload;
  }

  // Whatever the canonical check accepts is normalised already: the accepted texts are
  // exactly the printed forms of normalised payloads, each read back as that payload.
  lemma AcceptedIsNormalised(data: Bytes, parse: Bytes -> Option<Payload>, p: Payload)
    requires Faithful(parse)
    ensures Accepts(data, parse, p) <==> ValidPayload(p) && Normalized(p) == p && data == SealBytes(p)
  {
    if ValidPayload(p) {
      NormalizedValid(p);
      var n := Normalized(p);
      assert parse(SealBytes(n)) == Some(n);
    }
  }
}
