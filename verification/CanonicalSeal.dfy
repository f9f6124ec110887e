/** The canonical format-4 Seal bytes (internal/canonical/seal.go, internal/domain/validate.go). */
module CanonicalSeal {
  import opened Ids
  import opened Utf8
  import opened Sorting

  // An object identifier is its hexadecimal text here: the encoder works on the text.
  datatype ContentRef = ContentRef(store: Bytes, kind: Bytes, id: Bytes)
  datatype Link = Link(target: Bytes, message: Bytes)
  datatype NamedBlob = NamedBlob(name: Bytes, mediaType: Bytes, blob: ContentRef)
  datatype Payload = Payload(schema: Bytes, parent: Option<Bytes>, content: ContentRef, attachments: seq<NamedBlob>,
                             links: seq<Link>, root: bool, draft: bool)

  datatype SealError = WrongSchema | BadId | BadContent | BadText | EmptyName | DuplicateTarget | DuplicateName
                     | RootWithCauses | NoCauses

  const STORE_KEY: Bytes := Lit("{\"store\":")
  const TYPE_KEY: Bytes := Lit(",\"type\":")
  const ID_KEY: Bytes := Lit(",\"id\":")
  const CLOSE: Bytes := Lit("}")
  const NAME_KEY: Bytes := Lit("{\"name\":")
  const MEDIA_TYPE_KEY: Bytes := Lit(",\"media_type\":")
  const BLOB_KEY: Bytes := Lit(",\"blob\":")
  const TARGET_KEY: Bytes := Lit("{\"target_seal\":")
  const MESSAGE_KEY: Bytes := Lit(",\"message\":")
  const COMMA: Bytes := Lit(",")
  const NULL: Bytes := Lit("null")
  const TRUE: Bytes := Lit("true")
  const FALSE: Bytes := Lit("false")
  const SCHEMA_KEY: Bytes := Lit("{\"schema\":")
  const PARENT_KEY: Bytes := Lit(",\"parent_revision\":")
  const CONTENT_KEY: Bytes := Lit(",\"content\":")
  const ATTACHMENTS_KEY: Bytes := Lit(",\"attachments\":[")
  const ROOT_KEY: Bytes := Lit("],\"root\":")
  const DRAFT_KEY: Bytes := Lit(",\"draft\":")
  const LINKS_KEY: Bytes := Lit("],\"links\":[")
  const NATIVE_STORE: Bytes := Lit("native")
  const BLOB_TYPE: Bytes := Lit("blob")
  const SEAL_SCHEMA: Bytes := Lit("sealgraph/seal/v4")

  // --------------------------------------------------------------- validity

  predicate HexByte(b: byte) {
    48 <= b < 58 || 97 <= b < 103
  }

  lemma HexBytes(b: byte)
    ensures HexByte(b) <==> b in Lit("0123456789abcdef")
  {
    var digits := Lit("0123456789abcdef");
    if b < 58 {
      assert HexByte(b) ==> digits[b as int - 48] == b;
    } else {
      assert HexByte(b) ==> digits[b as int - 87] == b;
    }
  }

  predicate ValidId(id: Bytes) {
    |id| == 64 && forall i :: 0 <= i < |id| ==> HexByte(id[i])
  }

  predicate ValidText(b: Bytes) {
    Runes(b).Some?
  }

  predicate ValidContent(c: ContentRef) {
    c.store == NATIVE_STORE && c.kind == BLOB_TYPE && ValidId(c.id)
  }

  predicate ValidLink(l: Link) {
    ValidId(l.target) && ValidText(l.message)
  }

  predicate ValidNamed(a: NamedBlob) {
    a.name != [] && ValidText(a.name) && ValidText(a.mediaType) && ValidContent(a.blob)
  }

  ghost predicate LinksValid(links: seq<Link>) {
    && (forall i :: 0 <= i < |links| ==> ValidLink(links[i]))
    && (forall i, j :: 0 <= i < j < |links| ==> links[i].target != links[j].target)
  }

  ghost predicate AttachmentsValid(attachments: seq<NamedBlob>) {
    && (forall i :: 0 <= i < |attachments| ==> ValidNamed(attachments[i]))
    && (forall i, j :: 0 <= i < j < |attachments| ==> attachments[i].name != attachments[j].name)
  }

  ghost predicate ValidPayload(p: Payload) {
    && p.schema == SEAL_SCHEMA && (p.parent.Some? ==> ValidId(p.parent.value)) && ValidContent(p.content)
    && AttachmentsValid(p.attachments) && LinksValid(p.links)
    && (p.root <==> p.links == [])
  }

  // What each refusal says of the payload.
  ghost predicate LinksDefect(links: seq<Link>, e: SealError) {
    match e
    case BadId => exists l :: l in links && !ValidId(l.target)
    case BadText => exists l :: l in links && !ValidText(l.message)
    case DuplicateTarget => exists i, j :: 0 <= i < j < |links| && links[i].target == links[j].target
    case _ => false
  }

  ghost predicate AttachmentsDefect(attachments: seq<NamedBlob>, e: SealError) {
    match e
    case EmptyName => exists a :: a in attachments && a.name == []
    case BadText => exists a :: a in attachments && (!ValidText(a.name) || !ValidText(a.mediaType))
    case BadContent => exists a :: a in attachments && !ValidContent(a.blob)
    case DuplicateName => exists i, j :: 0 <= i < j < |attachments| && attachments[i].name == attachments[j].name
    case _ => false
  }

  ghost predicate Defect(p: Payload, e: SealError) {
    || (e == WrongSchema && p.schema != SEAL_SCHEMA)
    || (e == BadId && p.parent.Some? && !ValidId(p.parent.value))
    || (e == BadContent && !ValidContent(p.content))
    || AttachmentsDefect(p.attachments, e) || LinksDefect(p.links, e)
    || (e == RootWithCauses && p.root && p.links != [])
    || (e == NoCauses && !p.root && p.links == [])
  }

  // ----------------------------------------------------------- normalising

  predicate LinkLess(a: Link, b: Link) {
    KeysLess([a.target, a.message], [b.target, b.message])
  }

  predicate NamedLess(a: NamedBlob, b: NamedBlob) {
    KeysLess([a.name, a.mediaType, a.blob.store, a.blob.kind, a.blob.id],
        [b.name, b.mediaType, b.blob.store, b.blob.kind, b.blob.id])
  }

  lemma LinkOrder()
    ensures StrictOrder(LinkLess)
  {
    forall a: Link, b: Link
      ensures !(LinkLess(a, b) && LinkLess(b, a)) && (LinkLess(a, b) || LinkLess(b, a) || a == b)
    {
      var k, l := [a.target, a.message], [b.target, b.message];
      KeysTotal(k, l);
      assert k == l ==> k[0] == l[0] && k[1] == l[1];
    }
    forall a: Link, b: Link, c: Link | LinkLess(a, b) && LinkLess(b, c) ensures LinkLess(a, c) {
      KeysTransitive([a.target, a.message], [b.target, b.message], [c.target, c.message]);
    }
  }

  lemma NamedOrder()
    ensures StrictOrder(NamedLess)
  {
    forall a: NamedBlob, b: NamedBlob
      ensures !(NamedLess(a, b) && NamedLess(b, a)) && (NamedLess(a, b) || NamedLess(b, a) || a == b)
    {
      var k := [a.name, a.mediaType, a.blob.store, a.blob.kind, a.blob.id];
      var l := [b.name, b.mediaType, b.blob.store, b.blob.kind, b.blob.id];
      KeysTotal(k, l);
      assert k == l ==> k[0] == l[0] && k[1] == l[1] && k[2] == l[2] && k[3] == l[3] && k[4] == l[4];
    }
    forall a: NamedBlob, b: NamedBlob, c: NamedBlob | NamedLess(a, b) && NamedLess(b, c) ensures NamedLess(a, c) {
      KeysTransitive([a.name, a.mediaType, a.blob.store, a.blob.kind, a.blob.id],
                     [b.name, b.mediaType, b.blob.store, b.blob.kind, b.blob.id],
                     [c.name, c.mediaType, c.blob.store, c.blob.kind, c.blob.id]);
    }
  }

  function TargetOf(l: Link): Bytes {
    l.target
  }

  function NameOf(a: NamedBlob): Bytes {
    a.name
  }

  lemma LinkGroups()
    ensures StrictOrder(LinkLess) && GroupsBy(LinkLess, TargetOf)
  {
    LinkOrder();
    forall a: Link, b: Link, c: Link | a.target == c.target && !LinkLess(b, a) && !LinkLess(c, b)
      ensures a.target == b.target
    {
      BytesTotal(a.target, b.target);
    }
  }

  lemma NamedGroups()
    ensures StrictOrder(NamedLess) && GroupsBy(NamedLess, NameOf)
  {
    NamedOrder();
    forall a: NamedBlob, b: NamedBlob, c: NamedBlob | a.name == c.name && !NamedLess(b, a) && !NamedLess(c, b)
      ensures a.name == b.name
    {
      BytesTotal(a.name, b.name);
    }
  }

  // NormalizeLinks: it refuses a bad link or a repeated target and sorts the rest.
  method NormalizeLinks(links: seq<Link>) returns (res: Result<seq<Link>, SealError>)
    ensures res.Success? <==> LinksValid(links)
    ensures res.Failure? ==> LinksDefect(links, res.error)
    ensures res.Success? ==> multiset(res.value) == multiset(links)
    ensures res.Success? ==> forall i, j :: 0 <= i < j < |res.value| ==>
                               BytesLess(res.value[i].target, res.value[j].target)
    ensures res.Success? ==> res.value == SortBy(links, LinkLess)
  {
    for i := 0 to |links|
      invariant forall k :: 0 <= k < i ==> ValidLink(links[k])
    {
      assert links[i] in links;
      if !ValidId(links[i].target) {
        return Failure(BadId);
      }
      if !ValidText(links[i].message) {
        return Failure(BadText);
      }
    }
    LinkGroups();
    SortBySorted(links, LinkLess);
    SortedDistinct(links, LinkLess, TargetOf);
    var normalized := SortBy(links, LinkLess);
    var repeated := NeighboursDiffer(normalized, LinkLess, TargetOf);
    if repeated.Some? {
      return Failure(DuplicateTarget);
    }
    LinksAscend(normalized);
    res := Success(normalized);
  }

  method CheckAttachments(attachments: seq<NamedBlob>) returns (err: Option<SealError>)
    ensures err.None? <==> forall i :: 0 <= i < |attachments| ==> ValidNamed(attachments[i])
    ensures err.Some? ==> AttachmentsDefect(attachments, err.value)
  {
    for i := 0 to |attachments|
      invariant forall k :: 0 <= k < i ==> ValidNamed(attachments[k])
    {
      var a := attachments[i];
      assert a in attachments;
      if a.name == [] {
        return Some(EmptyName);
      }
      if !ValidText(a.name) || !ValidText(a.mediaType) {
        return Some(BadText);
      }
      if !ValidContent(a.blob) {
        return Some(BadContent);
      }
    }
    err := None;
  }

  // With different keys the order is that of the keys, byte by byte.
  lemma LinksAscend(links: seq<Link>)
    requires SortedBy(links, LinkLess) && DistinctKeys(links, TargetOf)
    ensures forall i, j :: 0 <= i < j < |links| ==> BytesLess(links[i].target, links[j].target)
  {
    LinkOrder();
    forall i, j | 0 <= i < j < |links| ensures BytesLess(links[i].target, links[j].target) {
      assert TargetOf(links[i]) != TargetOf(links[j]);
      assert LinkLess(links[i], links[j]);
    }
  }

  lemma NamesAscend(attachments: seq<NamedBlob>)
    requires SortedBy(attachments, NamedLess) && DistinctKeys(attachments, NameOf)
    ensures forall i, j :: 0 <= i < j < |attachments| ==> BytesLess(attachments[i].name, attachments[j].name)
  {
    NamedOrder();
    forall i, j | 0 <= i < j < |attachments| ensures BytesLess(attachments[i].name, attachments[j].name) {
      assert NameOf(attachments[i]) != NameOf(attachments[j]);
      assert NamedLess(attachments[i], attachments[j]);
    }
  }

  // NormalizeAttachments: it refuses a bad attachment or a repeated name and sorts the rest.
  method NormalizeAttachments(attachments: seq<NamedBlob>) returns (res: Result<seq<NamedBlob>, SealError>)
    ensures res.Success? <==> AttachmentsValid(attachments)
    ensures res.Failure? ==> AttachmentsDefect(attachments, res.error)
    ensures res.Success? ==> multiset(res.value) == multiset(attachments)
    ensures res.Success? ==> forall i, j :: 0 <= i < j < |res.value| ==>
                               BytesLess(res.value[i].name, res.value[j].name)
    ensures res.Success? ==> res.value == SortBy(attachments, NamedLess)
  {
    var err := CheckAttachments(attachments);
    if err.Some? {
      return Failure(err.value);
    }
    NamedGroups();
    SortBySorted(attachments, NamedLess);
    SortedDistinct(attachments, NamedLess, NameOf);
    var normalized := SortBy(attachments, NamedLess);
    var repeated := NeighboursDiffer(normalized, NamedLess, NameOf);
    if repeated.Some? {
      return Failure(DuplicateName);
    }
    NamesAscend(normalized);
    res := Success(normalized);
  }

  function Normalized(p: Payload): Payload {
    p.(attachments := SortBy(p.attachments, NamedLess), links := SortBy(p.links, LinkLess))
  }

  // NormalizeSeal.
  method NormalizeSeal(p: Payload) returns (res: Result<Payload, SealError>)
    ensures res.Success? <==> ValidPayload(p)
    ensures res.Success? ==> res.value == Normalized(p)
    ensures res.Failure? ==> Defect(p, res.error)
  {
    if p.schema != SEAL_SCHEMA {
      return Failure(WrongSchema);
    }
    if p.parent.Some? && !ValidId(p.parent.value) {
      return Failure(BadId);
    }
    if !ValidContent(p.content) {
      return Failure(BadContent);
    }
    var attachments := NormalizeAttachments(p.attachments);
    if attachments.Failure? {
      return Failure(attachments.error);
    }
    var links := NormalizeLinks(p.links);
    if links.Failure? {
      return Failure(links.error);
    }
    LinkOrder();
    SortedMembers(p.links, LinkLess);
    if p.root && |links.value| != 0 {
      return Failure(RootWithCauses);
    }
    if !p.root && |links.value| == 0 {
      return Failure(NoCauses);
    }
    res := Success(p.(attachments := attachments.value, links := links.value));
  }

  // Equal but for the order of links and attachments.
  ghost predicate SameButOrder(p: Payload, q: Payload) {
    p == q.(attachments := p.attachments, links := p.links)
    && multiset(p.attachments) == multiset(q.attachments) && multiset(p.links) == multiset(q.links)
  }

  lemma NormalizedSame(p: Payload, q: Payload)
    ensures Normalized(p) == Normalized(q) <==> SameButOrder(p, q)
  {
    LinkOrder();
    NamedOrder();
    SameSorted(p.links, q.links, LinkLess);
    SameSorted(p.attachments, q.attachments, NamedLess);
  }

  lemma NormalizedValid(p: Payload)
    requires ValidPayload(p)
    ensures ValidPayload(Normalized(p)) && Normalized(Normalized(p)) == Normalized(p)
  {
    LinkOrder();
    NamedOrder();
    SortBySorted(p.links, LinkLess);
    SortBySorted(p.attachments, NamedLess);
    NormalizedSame(Normalized(p), p);
    var links, attachments := SortBy(p.links, LinkLess), SortBy(p.attachments, NamedLess);
    SortedMembers(p.links, LinkLess);
    SortedMembers(p.attachments, NamedLess);
    assert DistinctKeys(p.links, TargetOf) && DistinctKeys(p.attachments, NameOf);
    SortedDistinct(p.links, LinkLess, TargetOf);
    SortedDistinct(p.attachments, NamedLess, NameOf);
    forall i | 0 <= i < |links| ensures ValidLink(links[i]) {
      assert links[i] in p.links;
    }
    forall i | 0 <= i < |attachments| ensures ValidNamed(attachments[i]) {
      assert attachments[i] in p.attachments;
    }
    DistinctMeans(links, attachments);
  }

  lemma DistinctMeans(links: seq<Link>, attachments: seq<NamedBlob>)
    ensures DistinctKeys(links, TargetOf) ==> forall i, j :: 0 <= i < j < |links| ==> links[i].target != links[j].target
    ensures DistinctKeys(attachments, NameOf) ==>
              forall i, j :: 0 <= i < j < |attachments| ==> attachments[i].name != attachments[j].name
  {
    assert forall i, j :: 0 <= i < j < |links| && TargetOf(links[i]) != TargetOf(links[j]) ==>
        links[i].target != links[j].target;
    assert forall i, j :: 0 <= i < j < |attachments| && NameOf(attachments[i]) != NameOf(attachments[j]) ==>
        attachments[i].name != attachments[j].name;
  }

  // ---------------------------------------------------------------- encoding

  // The output is made of fixed text and quoted strings.
  datatype Piece = Key(text: Bytes) | Text(value: Bytes)

  function PieceBytes(p: Piece): Bytes {
    match p
    case Key(text) => text
    case Text(value) => if ValidText(value) then Quoted(Runes(value).value) else []
  }

  function Print(ps: seq<Piece>): Bytes {
    if ps == [] then [] else PieceBytes(ps[0]) + Print(ps[1..])
  }

  function ContentStart(c: ContentRef): seq<Piece> {
    [Key(STORE_KEY), Text(c.store), Key(TYPE_KEY), Text(c.kind), Key(ID_KEY)]
  }

  function ContentPieces(c: ContentRef): seq<Piece> {
    ContentStart(c) + [Text(c.id), Key(CLOSE)]
  }

  function NamedStart(a: NamedBlob): seq<Piece> {
    [Key(NAME_KEY), Text(a.name), Key(MEDIA_TYPE_KEY), Text(a.mediaType), Key(BLOB_KEY)]
  }

  function NamedPieces(a: NamedBlob): seq<Piece> {
    NamedStart(a) + ContentPieces(a.blob) + [Key(CLOSE)]
  }

  function LinkPieces(l: Link): seq<Piece> {
    [Key(TARGET_KEY), Text(l.target), Key(MESSAGE_KEY), Text(l.message), Key(CLOSE)]
  }

  // The elements of an array, commas between them.
  function ListPieces<T>(items: seq<T>, item: T -> seq<Piece>): seq<Piece> {
    if items == [] then []
    else if |items| == 1 then item(items[0])
    else ListPieces(items[..|items| - 1], item) + [Key(COMMA)] + item(items[|items| - 1])
  }

  function ParentPiece(parent: Option<Bytes>): Piece {
    if parent.None? then Key(NULL) else Text(parent.value)
  }

  function BoolPiece(v: bool): Piece {
    if v then Key(TRUE) else Key(FALSE)
  }

  function HeadStart(p: Payload): seq<Piece> {
    [Key(SCHEMA_KEY), Text(p.schema), Key(PARENT_KEY), ParentPiece(p.parent), Key(CONTENT_KEY)]
  }

  function HeadPieces(p: Payload): seq<Piece> {
    HeadStart(p) + ContentPieces(p.content) + [Key(ATTACHMENTS_KEY)]
  }

  function FlagPieces(p: Payload): seq<Piece> {
    [Key(ROOT_KEY), BoolPiece(p.root), Key(DRAFT_KEY), BoolPiece(p.draft), Key(CLOSE)]
  }

  function SealPieces(p: Payload): seq<Piece> {
    ArraysAfter(p, HeadPieces(p)) + FlagPieces(p)
  }

  function SealBytes(p: Payload): Bytes {
    Print(SealPieces(p))
  }

  lemma PrintCons(p: Piece, rest: seq<Piece>)
    ensures Print([p] + rest) == PieceBytes(p) + Print(rest)
  {
    assert ([p] + rest)[1..] == rest;
  }

  lemma ConsAppend(a: seq<Piece>, b: seq<Piece>)
    requires a != []
    ensures a + b == [a[0]] + (a[1..] + b)
  {
  }

  lemma {:induction false} PrintAppend(a: seq<Piece>, b: seq<Piece>)
    ensures Print(a + b) == Print(a) + Print(b)
  {
    if a == [] {
      assert a + b == b && [] + Print(b) == Print(b);
    } else {
      var p, rest := a[0], a[1..];
      PrintAppend(rest, b);
      ConsAppend(a, b);
      PrintCons(p, rest + b);
      Reassociate(PieceBytes(p), Print(rest), Print(b));
      assert Print(a) == PieceBytes(p) + Print(rest);
    }
  }

  lemma Reassociate(a: Bytes, b: Bytes, c: Bytes)
    ensures (a + b) + c == a + (b + c)
  {
  }

  lemma PrintOne(a: seq<Piece>, p: Piece)
    ensures Print(a + [p]) == Print(a) + PieceBytes(p)
  {
    PrintAppend(a, [p]);
    assert Print([p]) == PieceBytes(p) + Print([]);
  }

  // Identifiers and the fixed names are plain ASCII, so their strings are valid.
  lemma {:induction false} AsciiValid(b: Bytes)
    requires forall i :: 0 <= i < |b| ==> b[i] < 128
    ensures ValidText(b)
  {
    if b != [] {
      AsciiValid(b[1..]);
      assert DecodeRune(b) == Some((b[0] as int, 1));
    }
  }

  // Printing a few pieces one after the other onto base.
  lemma PrintFive(base: Bytes, a: Piece, b: Piece, c: Piece, d: Piece, e: Piece)
    ensures base + PieceBytes(a) + PieceBytes(b) + PieceBytes(c) + PieceBytes(d) + PieceBytes(e) == base
              + Print([a, b, c, d, e])
  {
    PrintPair(base, a, b);
    PrintPair(base + Print([a, b]), c, d);
    PrintTwice(base, [a, b], [c, d]);
    PrintTwice(base, [a, b] + [c, d], [e]);
    PrintOne([], e);
    assert [] + [e] == [e];
    assert [a, b] + [c, d] + [e] == [a, b, c, d, e];
  }

  lemma PrintPair(base: Bytes, a: Piece, b: Piece)
    ensures base + PieceBytes(a) + PieceBytes(b) == base + Print([a, b])
  {
    PrintOne([], a);
    PrintOne([a], b);
    assert [] + [a] == [a] && [a] + [b] == [a, b];
    Reassociate(base, PieceBytes(a), PieceBytes(b));
  }

  lemma PrintTwice(base: Bytes, a: seq<Piece>, b: seq<Piece>)
    ensures base + Print(a) + Print(b) == base + Print(a + b)
  {
    PrintAppend(a, b);
    Reassociate(base, Print(a), Print(b));
  }

  // AppendString on a string already known to be valid.
  method PutText(b: Bytes, value: Bytes) returns (out: Bytes)
    requires ValidText(value)
    ensures out == b + PieceBytes(Text(value))
  {
    var appended := AppendString(b, value);
    out := appended.value;
  }

  // Key, string, key, string, key: how every object of the format begins.
  method PutTwoFields(b: Bytes, k0: Bytes, v0: Bytes, k1: Bytes, v1: Bytes, k2: Bytes) returns (out: Bytes)
    requires ValidText(v0) && ValidText(v1)
    ensures out == b + Print([Key(k0), Text(v0), Key(k1), Text(v1), Key(k2)])
  {
    PrintFive(b, Key(k0), Text(v0), Key(k1), Text(v1), Key(k2));
    out := b + k0;
    out := PutText(out, v0);
    out := out + k1;
    out := PutText(out, v1);
    out := out + k2;
  }

  method AppendContent(b: Bytes, c: ContentRef) returns (out: Bytes)
    requires ValidContent(c)
    ensures out == b + Print(ContentPieces(c))
  {
    AsciiValid(c.store);
    AsciiValid(c.kind);
    AsciiValid(c.id);
    out := PutTwoFields(b, STORE_KEY, c.store, TYPE_KEY, c.kind, ID_KEY);
    PrintPair(out, Text(c.id), Key(CLOSE));
    PrintTwice(b, ContentStart(c), [Text(c.id), Key(CLOSE)]);
    out := PutText(out, c.id);
    out := out + CLOSE;
  }

  method AppendNamed(b: Bytes, a: NamedBlob) returns (out: Bytes)
    requires ValidNamed(a)
    ensures out == b + Print(NamedPieces(a))
  {
    out := PutTwoFields(b, NAME_KEY, a.name, MEDIA_TYPE_KEY, a.mediaType, BLOB_KEY);
    out := AppendContent(out, a.blob);
    PrintTwice(b, NamedStart(a), ContentPieces(a.blob));
    out := PutKey(out, CLOSE, b, NamedStart(a) + ContentPieces(a.blob));
  }

  method PutKey(b: Bytes, text: Bytes, ghost base: Bytes, ghost done: seq<Piece>) returns (out: Bytes)
    requires b == base + Print(done)
    ensures out == base + Print(done + [Key(text)])
  {
    PrintOne(done, Key(text));
    Reassociate(base, Print(done), text);
    out := b + text;
  }

  method AppendLink(b: Bytes, l: Link) returns (out: Bytes)
    requires ValidLink(l)
    ensures out == b + Print(LinkPieces(l))
  {
    AsciiValid(l.target);
    out := PutTwoFields(b, TARGET_KEY, l.target, MESSAGE_KEY, l.message, CLOSE);
  }

  lemma ListNext<T>(items: seq<T>, item: T -> seq<Piece>, k: nat)
    requires k < |items|
    ensures ListPieces(items[..k + 1], item) == Separated(ListPieces(items[..k], item), k) + item(items[k])
  {
    assert items[..k + 1][..k] == items[..k];
    assert [] + item(items[k]) == item(items[k]);
  }

  function Separated(ps: seq<Piece>, k: nat): seq<Piece> {
    if k == 0 then [] else ps + [Key(COMMA)]
  }

  // A comma before every element but the first.
  method PutComma(b: Bytes, k: nat, ghost base: Bytes, ghost list: seq<Piece>) returns (out: Bytes)
    requires b == base + Print(list) && (k == 0 ==> list == [])
    ensures out == base + Print(Separated(list, k))
  {
    out := b;
    if k > 0 {
      out := PutKey(out, COMMA, base, list);
    }
  }

  method AppendAttachments(b: Bytes, attachments: seq<NamedBlob>) returns (out: Bytes)
    requires forall i :: 0 <= i < |attachments| ==> ValidNamed(attachments[i])
    ensures out == b + Print(ListPieces(attachments, NamedPieces))
  {
    out := b;
    assert b + Print(ListPieces(attachments[..0], NamedPieces)) == b;
    for i := 0 to |attachments|
      invariant out == b + Print(ListPieces(attachments[..i], NamedPieces))
    {
      ghost var list := ListPieces(attachments[..i], NamedPieces);
      ListNext(attachments, NamedPieces, i);
      out := PutComma(out, i, b, list);
      out := AppendNamed(out, attachments[i]);
      PrintTwice(b, Separated(list, i), NamedPieces(attachments[i]));
    }
    assert attachments[..|attachments|] == attachments;
  }

  method AppendLinks(b: Bytes, links: seq<Link>) returns (out: Bytes)
    requires forall i :: 0 <= i < |links| ==> ValidLink(links[i])
    ensures out == b + Print(ListPieces(links, LinkPieces))
  {
    out := b;
    assert b + Print(ListPieces(links[..0], LinkPieces)) == b;
    for i := 0 to |links|
      invariant out == b + Print(ListPieces(links[..i], LinkPieces))
    {
      ghost var list := ListPieces(links[..i], LinkPieces);
      ListNext(links, LinkPieces, i);
      out := PutComma(out, i, b, list);
      out := AppendLink(out, links[i]);
      PrintTwice(b, Separated(list, i), LinkPieces(links[i]));
    }
    assert links[..|links|] == links;
  }

  method PutFieldAndKey(k0: Bytes, v0: Bytes, k1: Bytes, k2: Bytes, k3: Bytes) returns (out: Bytes)
    requires ValidText(v0)
    ensures out == [] + Print([Key(k0), Text(v0), Key(k1), Key(k2), Key(k3)])
  {
    PrintFive([], Key(k0), Text(v0), Key(k1), Key(k2), Key(k3));
    out := PutText([] + k0, v0);
    out := out + k1 + k2 + k3;
  }

  method AppendHeadStart(p: Payload) returns (out: Bytes)
    requires ValidText(p.schema) && (p.parent.Some? ==> ValidId(p.parent.value))
    ensures out == [] + Print(HeadStart(p))
  {
    if p.parent.None? {
      out := PutFieldAndKey(SCHEMA_KEY, p.schema, PARENT_KEY, NULL, CONTENT_KEY);
    } else {
      AsciiValid(p.parent.value);
      out := PutTwoFields([], SCHEMA_KEY, p.schema, PARENT_KEY, p.parent.value, CONTENT_KEY);
    }
  }

  method AppendHead(p: Payload) returns (out: Bytes)
    requires ValidText(p.schema) && (p.parent.Some? ==> ValidId(p.parent.value)) && ValidContent(p.content)
    ensures out == [] + Print(HeadPieces(p))
  {
    out := AppendHeadStart(p);
    out := AppendContent(out, p.content);
    PrintTwice([], HeadStart(p), ContentPieces(p.content));
    out := PutKey(out, ATTACHMENTS_KEY, [], HeadStart(p) + ContentPieces(p.content));
  }

  method AppendFlags(b: Bytes, p: Payload) returns (out: Bytes)
    ensures out == b + Print(FlagPieces(p))
  {
    PrintFive(b, Key(ROOT_KEY), BoolPiece(p.root), Key(DRAFT_KEY), BoolPiece(p.draft), Key(CLOSE));
    out := b + ROOT_KEY;
    out := out + BoolPiece(p.root).text;
    out := out + DRAFT_KEY;
    out := out + BoolPiece(p.draft).text;
    out := out + CLOSE;
  }

  method PrintSeal(n: Payload) returns (b: Bytes)
    requires ValidText(n.schema) && (n.parent.Some? ==> ValidId(n.parent.value)) && ValidContent(n.content)
    requires forall i :: 0 <= i < |n.attachments| ==> ValidNamed(n.attachments[i])
    requires forall i :: 0 <= i < |n.links| ==> ValidLink(n.links[i])
    ensures b == SealBytes(n)
  {
    b := AppendHead(n);
    b := AppendArrays(b, n, HeadPieces(n));
    b := AppendFlags(b, n);
    PrintTwice([], ArraysAfter(n, HeadPieces(n)), FlagPieces(n));
    assert [] + SealBytes(n) == SealBytes(n);
  }

  function ArraysAfter(n: Payload, done: seq<Piece>): seq<Piece> {
    done + ListPieces(n.attachments, NamedPieces) + [Key(LINKS_KEY)] + ListPieces(n.links, LinkPieces)
  }

  method AppendArrays(b: Bytes, n: Payload, ghost done: seq<Piece>) returns (out: Bytes)
    requires b == [] + Print(done)
    requires forall i :: 0 <= i < |n.attachments| ==> ValidNamed(n.attachments[i])
    requires forall i :: 0 <= i < |n.links| ==> ValidLink(n.links[i])
    ensures out == [] + Print(ArraysAfter(n, done))
  {
    out := AppendAttachments(b, n.attachments);
    ghost var list := ListPieces(n.attachments, NamedPieces);
    PrintTwice([], done, list);
    out := PutKey(out, LINKS_KEY, [], done + list);
    ghost var open := done + list + [Key(LINKS_KEY)];
    out := AppendLinks(out, n.links);
    PrintTwice([], open, ListPieces(n.links, LinkPieces));
  }

  // ------------------------------------------------------ the text, in its parts

  // Every element after the first, each behind its comma.
  function MorePieces<T>(items: seq<T>, item: T -> seq<Piece>): seq<Piece> {
    if items == [] then [] else ([Key(COMMA)] + item(items[0])) + MorePieces(items[1..], item)
  }

  lemma {:induction false} MoreNext<T>(items: seq<T>, item: T -> seq<Piece>)
    requires items != []
    ensures MorePieces(items, item) == MorePieces(items[..|items| - 1], item)
              + ([Key(COMMA)] + item(items[|items| - 1]))
    decreases |items|
  {
    var n, first := |items| - 1, [Key(COMMA)] + item(items[0]);
    if n > 0 {
      MoreNext(items[1..], item);
      assert items[1..][..n - 1] == items[..n][1..] && items[1..][n - 1] == items[n];
      AssocPieces(first, MorePieces(items[..n][1..], item), [Key(COMMA)] + item(items[n]));
    } else {
      assert first + [] == [] + first;
    }
  }

  lemma AssocPieces(a: seq<Piece>, b: seq<Piece>, c: seq<Piece>)
    ensures (a + b) + c == a + (b + c)
  {
  }

  lemma {:induction false} ListFront<T>(items: seq<T>, item: T -> seq<Piece>)
    requires items != []
    ensures ListPieces(items, item) == item(items[0]) + MorePieces(items[1..], item)
    decreases |items|
  {
    var n := |items| - 1;
    if n > 0 {
      ListFront(items[..n], item);
      MoreNext(items[1..], item);
      assert items[1..][..n - 1] == items[..n][1..] && items[1..][n - 1] == items[n];
      AssocPieces(item(items[0]), MorePieces(items[..n][1..], item), [Key(COMMA)] + item(items[n]));
      AssocPieces(ListPieces(items[..n], item), [Key(COMMA)], item(items[n]));
    } else {
      assert item(items[0]) + [] == item(items[0]);
    }
  }

  function LinksOpen(): Piece {
    Key(LINKS_KEY)
  }

  // The text of a Seal, cut at its two arrays.
  lemma SealCut(p: Payload)
    ensures SealBytes(p) == Print(HeadPieces(p)) + AttachmentsOn(p)
  {
    var atts, links, flags := ListPieces(p.attachments, NamedPieces), ListPieces(p.links, LinkPieces), FlagPieces(p);
    AssocPieces(HeadPieces(p) + atts + [LinksOpen()], links, flags);
    AssocPieces(HeadPieces(p) + atts, [LinksOpen()], links + flags);
    AssocPieces(HeadPieces(p), atts, [LinksOpen()] + (links + flags));
    PrintAppend(HeadPieces(p), atts + ([LinksOpen()] + (links + flags)));
    PrintAppend(atts, [LinksOpen()] + (links + flags));
    PrintCons(LinksOpen(), links + flags);
    PrintAppend(links, flags);
  }

  function LinksOn(p: Payload): Bytes {
    Print(ListPieces(p.links, LinkPieces)) + Print(FlagPieces(p))
  }

  function AttachmentsOn(p: Payload): Bytes {
    Print(ListPieces(p.attachments, NamedPieces)) + (PieceBytes(LinksOpen()) + LinksOn(p))
  }
}
