/** The byte encoding that is hashed into a file-reference capability fingerprint, and its decoder. */
module FileReferenceEncoding {
  import opened Wrappers
  import opened ByteEncoding

  const MAX_TOTAL_BYTES := 10485760

  datatype Disposition = Disposition(mode: Bytes, maxBytes: Option<int>, reason: Option<Bytes>)

  datatype Image = Image(mode: Bytes, maxBytes: Option<int>, mediaTypes: seq<Bytes>, reason: Option<Bytes>)

  datatype Capability = Capability(
    version: int, maxReferences: int, maxTotalBytes: int, file: Disposition, image: Image)

  // ---- Validation ----

  predicate ValidReason(reason: Option<Bytes>) {
    && reason.Some? && 1 <= |reason.value| <= 64 && 'a' <= reason.value[0] <= 'z'
    && forall i :: 0 < i < |reason.value| ==>
         var ch := reason.value[i]; 'a' <= ch <= 'z' || '0' <= ch <= '9' || ch == '_'
  }

  predicate ValidLimit(maxBytes: Option<int>, total: int) {
    maxBytes.Some? && 1 <= maxBytes.value <= total
  }

  predicate ValidDisposition(d: Disposition, total: int) {
    if d.mode == "allowed" then d.reason.None? && ValidLimit(d.maxBytes, total)
    else d.mode == "unsupported" && d.maxBytes.None? && ValidReason(d.reason)
  }

  /** Rank of the media types in byte order; zero for any other string. */
  function MediaRank(mediaType: Bytes): nat {
    if mediaType == "image/gif" then 1
    else if mediaType == "image/jpeg" then 2
    else if mediaType == "image/png" then 3
    else if mediaType == "image/webp" then 4
    else 0
  }

  predicate ValidMediaTypes(types: seq<Bytes>) {
    && 1 <= |types| <= 4
    && (forall i :: 0 <= i < |types| ==> MediaRank(types[i]) > 0)
    && (forall i :: 0 < i < |types| ==> MediaRank(types[i - 1]) < MediaRank(types[i]))
  }

  predicate ValidImage(image: Image, total: int) {
    if image.mode == "allowed" then
      image.reason.None? && ValidLimit(image.maxBytes, total) && ValidMediaTypes(image.mediaTypes)
    else image.mode == "unsupported" && image.maxBytes.None? && image.mediaTypes == [] && ValidReason(image.reason)
  }

  predicate Valid(c: Capability) {
    && c.version == 1 && 1 <= c.maxReferences <= 8 && 1 <= c.maxTotalBytes <= MAX_TOTAL_BYTES
    && ValidDisposition(c.file, c.maxTotalBytes) && ValidImage(c.image, c.maxTotalBytes)
  }

  // ---- The encoding ----

  function Limit(maxBytes: Option<int>): nat {
    if maxBytes.Some? && maxBytes.value >= 0 then maxBytes.value else 0
  }

  function AllowedByte(mode: Bytes): nat {
    if mode == "allowed" then 1 else 0
  }

  function PutLimit(mode: Bytes, maxBytes: Option<int>, rest: Bytes): Bytes {
    PutNumber(AllowedByte(mode), 1, PutNumber(Limit(maxBytes), 8, rest))
  }

  function PutFile(d: Disposition, rest: Bytes): Bytes {
    PutLimit(d.mode, d.maxBytes, PutString(OrEmpty(d.reason), rest))
  }

  function PutImage(image: Image, rest: Bytes): Bytes {
    PutLimit(image.mode, image.maxBytes,
      PutNumber(|image.mediaTypes|, 1, PutStrings(image.mediaTypes, PutString(OrEmpty(image.reason), rest))))
  }

  const HEADER: Bytes := "agentwharf.file-reference-capability.v1"

  function Body(c: Capability): Bytes
    requires Valid(c)
  {
    PutNumber(c.maxReferences, 1, PutNumber(c.maxTotalBytes, 8, PutFile(c.file, PutImage(c.image, ""))))
  }

  function Encoding(c: Capability): Bytes
    requires Valid(c)
  {
    HEADER + PutNumber(0, 1, PutNumber(1, 1, Body(c)))
  }

  // ---- The decoder ----

  datatype Limited = Limited(allowed: bool, bytes: nat)

  function GetLimit(data: Bytes): Parsed<Limited> {
    var allowed := GetNumber(1, data);
    if allowed.Failed? then Failed
    else
      var bytes := GetNumber(8, allowed.rest);
      if bytes.Failed? then Failed else Parsed(Limited(allowed.value == 1, bytes.value), bytes.rest)
  }

  function Mode(allowed: bool): Bytes {
    if allowed then "allowed" else "unsupported"
  }

  function Bound(l: Limited): Option<int> {
    if l.allowed then Some(l.bytes) else None
  }

  function GetFile(data: Bytes): Parsed<Disposition> {
    var l := GetLimit(data);
    if l.Failed? then Failed
    else
      var reason := GetString(l.rest);
      if reason.Failed? then Failed
      else Parsed(Disposition(Mode(l.value.allowed), Bound(l.value), NonEmpty(reason.value)), reason.rest)
  }

  function GetImage(data: Bytes): Parsed<Image> {
    var l := GetLimit(data);
    if l.Failed? then Failed
    else
      var count := GetNumber(1, l.rest);
      if count.Failed? then Failed
      else
        var types := GetStrings(count.value, count.rest);
        if types.Failed? then Failed
        else
          var reason := GetString(types.rest);
          if reason.Failed? then Failed
          else Parsed(Image(Mode(l.value.allowed), Bound(l.value), types.value, NonEmpty(reason.value)), reason.rest)
  }

  function DecodeBody(data: Bytes): Option<Capability> {
    var references := GetNumber(1, data);
    if references.Failed? then None
    else
      var total := GetNumber(8, references.rest);
      if total.Failed? then None
      else
        var file := GetFile(total.rest);
        if file.Failed? then None
        else
          var image := GetImage(file.rest);
          if image.Failed? || image.rest != "" then None
          else Some(Capability(1, references.value, total.value, file.value, image.value))
  }

  function Decode(data: Bytes): Option<Capability> {
    if !(HEADER <= data) then None
    else
      var zero := GetNumber(1, data[|HEADER|..]);
      if zero.Failed? then None
      else
        var one := GetNumber(1, zero.rest);
        if one.Failed? then None else DecodeBody(one.rest)
  }

  // ---- The decoder inverts the encoding ----

  lemma GetPutLimit(mode: Bytes, maxBytes: Option<int>, rest: Bytes)
    requires maxBytes.Some? ==> 0 <= maxBytes.value <= MAX_TOTAL_BYTES
    ensures GetLimit(PutLimit(mode, maxBytes, rest)) == Parsed(Limited(mode == "allowed", Limit(maxBytes)), rest)
  {
    Powers();
    hide PutNumber, GetNumber, Power;
    GetPutNumber(AllowedByte(mode), 1, PutNumber(Limit(maxBytes), 8, rest));
    GetPutNumber(Limit(maxBytes), 8, rest);
  }

  lemma GetPutFile(d: Disposition, total: int, rest: Bytes)
    requires ValidDisposition(d, total) && total <= MAX_TOTAL_BYTES
    ensures GetFile(PutFile(d, rest)) == Parsed(d, rest)
  {
    hide PutLimit, GetLimit, PutString, GetString;
    GetPutLimit(d.mode, d.maxBytes, PutString(OrEmpty(d.reason), rest));
    GetPutString(OrEmpty(d.reason), rest);
  }

  lemma MediaTypesShort(types: seq<Bytes>)
    requires ValidMediaTypes(types)
    ensures Short(types)
  {
  }

  lemma GetPutImage(image: Image, total: int, rest: Bytes)
    requires ValidImage(image, total) && total <= MAX_TOTAL_BYTES
    ensures GetImage(PutImage(image, rest)) == Parsed(image, rest)
  {
    Powers();
    if image.mode == "allowed" {
      MediaTypesShort(image.mediaTypes);
    }
    hide PutLimit, GetLimit, PutNumber, GetNumber, PutString, GetString, PutStrings, GetStrings, Power;
    var reason := PutString(OrEmpty(image.reason), rest);
    var types := PutStrings(image.mediaTypes, reason);
    GetPutLimit(image.mode, image.maxBytes, PutNumber(|image.mediaTypes|, 1, types));
    GetPutNumber(|image.mediaTypes|, 1, types);
    GetPutStrings(image.mediaTypes, reason);
    GetPutString(OrEmpty(image.reason), rest);
  }

  lemma DecodeBodyInverts(c: Capability)
    requires Valid(c)
    ensures DecodeBody(Body(c)) == Some(c)
  {
    Powers();
    hide PutNumber, GetNumber, PutFile, GetFile, PutImage, GetImage, Power;
    var image := PutImage(c.image, "");
    var file := PutFile(c.file, image);
    GetPutNumber(c.maxReferences, 1, PutNumber(c.maxTotalBytes, 8, file));
    GetPutNumber(c.maxTotalBytes, 8, file);
    GetPutFile(c.file, c.maxTotalBytes, image);
    GetPutImage(c.image, c.maxTotalBytes, "");
  }

  /** Decoding the encoding of any valid file-reference capability gives it back. */
  lemma DecodeInverts(c: Capability)
    requires Valid(c)
    ensures Decode(Encoding(c)) == Some(c)
  {
    Powers();
    DecodeBodyInverts(c);
    hide PutNumber, GetNumber, DecodeBody, Body, Power, Valid;
    var one := PutNumber(1, 1, Body(c));
    GetPutNumber(0, 1, one);
    GetPutNumber(1, 1, Body(c));
    assert Encoding(c)[|HEADER|..] == PutNumber(0, 1, one);
  }

  lemma EncodingIsInjective(a: Capability, b: Capability)
    requires Valid(a) && Valid(b) && Encoding(a) == Encoding(b)
    ensures a == b
  {
    DecodeInverts(a);
    DecodeInverts(b);
  }

  // ---- The encoder as it appends to a buffer ----

  method AppendLimit(
    data: Bytes, mode: Bytes, maxBytes: Option<int>, ghost rest: Bytes, ghost all: Bytes) returns (longer: Bytes)
    requires if mode == "allowed" then maxBytes.Some? && maxBytes.value >= 0 else maxBytes.None?
    requires data + PutLimit(mode, maxBytes, rest) == all
    ensures longer + rest == all
  {
    hide PutNumber;
    if mode == "allowed" {
      longer := AppendNumber(data, 1, 1, PutNumber(maxBytes.value, 8, rest), all);
      longer := AppendNumber(longer, maxBytes.value, 8, rest, all);
    } else {
      longer := AppendNumber(data, 0, 1, PutNumber(0, 8, rest), all);
      longer := AppendNumber(longer, 0, 8, rest, all);
    }
  }

  /** The bytes to hash, or nothing when the capability is not valid. */
  method Encode(c: Capability) returns (r: Option<Bytes>)
    ensures r.Some? <==> Valid(c)
    ensures r.Some? ==> r.value == Encoding(c) && Decode(r.value) == Some(c)
  {
    if !Valid(c) {
      return None;
    }
    DecodeInverts(c);
    hide Decode, PutNumber, PutString, PutStrings, PutLimit;
    ghost var all := Encoding(c);
    ghost var reason := PutString(OrEmpty(c.image.reason), "");
    ghost var image := PutImage(c.image, "");
    ghost var fileReason := PutString(OrEmpty(c.file.reason), image);
    var data := HEADER;
    data := AppendNumber(data, 0, 1, PutNumber(1, 1, Body(c)), all);
    data := AppendNumber(data, 1, 1, Body(c), all);
    data := AppendNumber(data, c.maxReferences, 1, PutNumber(c.maxTotalBytes, 8, PutFile(c.file, image)), all);
    data := AppendNumber(data, c.maxTotalBytes, 8, PutFile(c.file, image), all);
    data := AppendLimit(data, c.file.mode, c.file.maxBytes, fileReason, all);
    data := AppendString(data, if c.file.mode == "allowed" then "" else c.file.reason.value, image, all);
    ghost var types := PutStrings(c.image.mediaTypes, reason);
    data := AppendLimit(data, c.image.mode, c.image.maxBytes, PutNumber(|c.image.mediaTypes|, 1, types), all);
    data := AppendNumber(data, |c.image.mediaTypes|, 1, types, all);
    data := AppendStrings(data, c.image.mediaTypes, reason, all);
    data := AppendString(data, if c.image.mode == "allowed" then "" else c.image.reason.value, "", all);
    assert data + "" == data;
    return Some(data);
  }

  method AppendStrings(data: Bytes, items: seq<Bytes>, ghost rest: Bytes, ghost all: Bytes) returns (longer: Bytes)
    requires data + PutStrings(items, rest) == all
    ensures longer + rest == all
  {
    longer := data;
    assert items[0..] == items;
    for i := 0 to |items|
      invariant longer + PutStrings(items[i..], rest) == all
    {
      assert items[i..][1..] == items[i + 1..];
      longer := AppendString(longer, items[i], PutStrings(items[i + 1..], rest), all);
    }
  }

  // ---- The layout of the protocol document ----

  function OrZero(maxBytes: Option<int>): nat {
    if maxBytes.Some? && maxBytes.value > 0 then maxBytes.value else 0
  }

  /** The fields in the order in which the document lists them. */
  function Layout(c: Capability): (fields: seq<Bytes>)
    requires Valid(c)
    ensures |fields| == 13
  {
    ["agentwharf.file-reference-capability.v1", [0x00 as char], U8(1), U8(c.maxReferences), U64be(c.maxTotalBytes),
     U8(if c.file.mode == "allowed" then 1 else 0), U64be(OrZero(c.file.maxBytes)), Field(OrEmpty(c.file.reason)),
     U8(if c.image.mode == "allowed" then 1 else 0), U64be(OrZero(c.image.maxBytes)),
     U8(|c.image.mediaTypes|), Fields(c.image.mediaTypes), Field(OrEmpty(c.image.reason))]
  }

  lemma LimitLayout(mode: Bytes, maxBytes: Option<int>, rest: Bytes)
    ensures PutLimit(mode, maxBytes, rest) ==
            U8(if mode == "allowed" then 1 else 0) + (U64be(OrZero(maxBytes)) + rest)
  {
    LongNumberLayout(Limit(maxBytes));
    NumberLayout(AllowedByte(mode), PutNumber(Limit(maxBytes), 8, rest));
    hide BigEndian, U8, U64be;
  }

  lemma ImageLayout(c: Capability)
    requires Valid(c)
    ensures PutImage(c.image, "") == Concat(Layout(c)[8..])
  {
    var fields := Layout(c);
    ConcatFrom(fields);
    StringLayout(OrEmpty(c.image.reason), "");
    StringsLayout(c.image.mediaTypes, PutString(OrEmpty(c.image.reason), ""));
    var types := PutStrings(c.image.mediaTypes, PutString(OrEmpty(c.image.reason), ""));
    NumberLayout(|c.image.mediaTypes|, types);
    LimitLayout(c.image.mode, c.image.maxBytes, PutNumber(|c.image.mediaTypes|, 1, types));
    hide Valid, PutString, PutStrings, PutNumber, PutLimit, Field, Fields, U8, U64be, Concat, OrZero, OrEmpty;
    assert Concat(fields[12..]) == fields[12] + Concat(fields[13..]);
    assert Concat(fields[11..]) == fields[11] + Concat(fields[12..]);
    assert Concat(fields[10..]) == fields[10] + Concat(fields[11..]);
    assert Concat(fields[9..]) == fields[9] + Concat(fields[10..]);
    assert Concat(fields[8..]) == fields[8] + Concat(fields[9..]);
  }

  /** The bytes are those of the protocol document, field by field. */
  lemma EncodingFollowsDocument(c: Capability)
    requires Valid(c)
    ensures Encoding(c) == Concat(Layout(c))
  {
    var fields := Layout(c);
    ConcatFrom(fields);
    ImageLayout(c);
    var image := PutImage(c.image, "");
    StringLayout(OrEmpty(c.file.reason), image);
    LimitLayout(c.file.mode, c.file.maxBytes, PutString(OrEmpty(c.file.reason), image));
    LongNumberLayout(c.maxTotalBytes);
    NumberLayout(c.maxReferences, PutNumber(c.maxTotalBytes, 8, PutFile(c.file, image)));
    NumberLayout(1, Body(c));
    NumberLayout(0, PutNumber(1, 1, Body(c)));
    assert U8(0) == [0x00 as char];
    hide Valid, PutString, PutImage, PutLimit, Field, Fields, U8, U64be, BigEndian, Concat, OrZero, OrEmpty;
    assert Concat(fields[7..]) == fields[7] + Concat(fields[8..]);
    assert Concat(fields[6..]) == fields[6] + Concat(fields[7..]);
    assert Concat(fields[5..]) == fields[5] + Concat(fields[6..]);
    assert Concat(fields[4..]) == fields[4] + Concat(fields[5..]);
    assert Concat(fields[3..]) == fields[3] + Concat(fields[4..]);
    assert Concat(fields[2..]) == fields[2] + Concat(fields[3..]);
    assert Concat(fields[1..]) == fields[1] + Concat(fields[2..]);
    assert Concat(fields[0..]) == fields[0] + Concat(fields[1..]);
  }
}
