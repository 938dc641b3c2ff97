/** The payload of a workspace backup: one line of JSON that names the working copy, then the raw
    content. */
module BackupCodec {
  import opened Options
  import opened ByteStrings

  datatype Uri = Uri(scheme: string, authority: string, path: string, query: string, fragment: string)

  /** A member of the JSON object: text, or any other JSON value. */
  datatype Field = Text(text: string) | NotText(json: string)

  type Object = map<string, Field>

  /** The library calls: printing and reading an object as UTF-8 JSON (reading fails on anything that
      is not an object), printing and parsing a URI. */
  datatype Library = Library(stringify: Object -> Bytes, parse: Bytes -> Option<Object>,
                             uriText: Uri -> string, parseUri: string -> Option<Uri>)
  {
    /** Reading undoes printing, and printed JSON has no raw line feed (section 7 of RFC 8259). */
    ghost predicate Valid() {
      && (forall o :: parse(stringify(o)) == Some(o))
      && (forall o :: Newline !in stringify(o))
      && (forall u :: parseUri(uriText(u)) == Some(u))
    }
  }

  const Newline: byte := 10
  const MaxPayloadBytes := 8 * 1024 * 1024

  datatype Identifier = Identifier(resource: Uri, typeId: string)

  datatype Backup = Backup(identifier: Identifier, meta: Option<Object>, content: Bytes, baseline: Option<string>)

  datatype Encoded = Payload(bytes: Bytes) | TooLarge

  const Reserved: set<string> := {"resource", "typeId", "plainBaselineSha256"}

  // ----- encoding -----

  /** Later members win over earlier ones of the same name. */
  function Preamble(lib: Library, b: Backup): Object {
    (if b.meta.Some? then b.meta.value else map[])
    + (if b.baseline.Some? then map["plainBaselineSha256" := Text(b.baseline.value)] else map[])
    + map["resource" := Text(lib.uriText(b.identifier.resource)), "typeId" := Text(b.identifier.typeId)]
  }

  function Line(lib: Library, b: Backup): Bytes {
    lib.stringify(Preamble(lib, b)) + [Newline]
  }

  method EncodeBackupPayload(lib: Library, b: Backup) returns (encoded: Encoded)
    ensures encoded == if |Line(lib, b)| + |b.content| > 8388608 then TooLarge else Payload(Line(lib, b) + b.content)
  {
    var preambleBytes := Line(lib, b);
    var totalBytes := |preambleBytes| + |b.content|;
    if totalBytes > MaxPayloadBytes {
      return TooLarge;
    }
    var payload := new byte[totalBytes];
    SetBytes(payload, preambleBytes, 0);
    SetBytes(payload, b.content, |preambleBytes|);
    assert payload[..] == payload[..|preambleBytes|] + payload[|preambleBytes|..];
    return Payload(payload[..]);
  }

  /** Copies `bytes` into the buffer from `offset`. */
  method SetBytes(buffer: array<byte>, bytes: Bytes, offset: nat)
    requires offset + |bytes| <= buffer.Length
    modifies buffer
    ensures buffer[offset..offset + |bytes|] == bytes
    ensures buffer[..offset] == old(buffer[..offset])
    ensures buffer[offset + |bytes|..] == old(buffer[offset + |bytes|..])
  {
    for i := 0 to |bytes|
      invariant buffer[offset..offset + i] == bytes[..i]
      invariant buffer[..offset] == old(buffer[..offset])
      invariant buffer[offset + |bytes|..] == old(buffer[offset + |bytes|..])
    {
      buffer[offset + i] := bytes[i];
    }
  }

  // ----- decoding -----

  predicate IsHexDigit(c: char) {
    '0' <= c <= '9' || 'a' <= c <= 'f'
  }

  predicate IsDigest(text: string) {
    |text| == 64 && forall i :: 0 <= i < |text| ==> IsHexDigit(text[i])
  }

  function TextOf(o: Object, name: string): Option<string> {
    if name in o && o[name].Text? then Some(o[name].text) else None
  }

  function IndexOf(bytes: Bytes, b: byte): (i: Option<nat>)
    ensures i.Some? ==> i.value < |bytes| && bytes[i.value] == b && b !in bytes[..i.value]
    ensures i.None? <==> b !in bytes
  {
    if bytes == [] then None
    else if bytes[0] == b then Some(0)
    else
      var rest := IndexOf(bytes[1..], b);
      assert bytes == [bytes[0]] + bytes[1..];
      if rest.None? then None
      else
        assert bytes[..rest.value + 1] == [bytes[0]] + bytes[1..][..rest.value];
        Some(rest.value + 1)
  }

  /** The object's other members, if there are any. */
  function MetaOf(o: Object): Option<Object> {
    var rest := o - Reserved;
    if rest == map[] then None else Some(rest)
  }

  function BaselineOf(o: Object): Option<string> {
    var text := TextOf(o, "plainBaselineSha256");
    if text.Some? && IsDigest(text.value) then text else None
  }

  function Decoded(lib: Library, bytes: Bytes): Option<Backup> {
    var newline := IndexOf(bytes, Newline);
    if newline.None? then None
    else
      var preamble := lib.parse(bytes[..newline.value]);
      if preamble.None? then None
      else
        var resourceText := TextOf(preamble.value, "resource");
        if resourceText.None? then None
        else
          var resource := lib.parseUri(resourceText.value);
          if resource.None? then None
          else
            var typeId := TextOf(preamble.value, "typeId");
            Some(Backup(Identifier(resource.value, if typeId.Some? then typeId.value else ""),
                        MetaOf(preamble.value), bytes[newline.value + 1..], BaselineOf(preamble.value)))
  }

  // ----- round trip -----

  lemma {:induction false} FirstIndex(bytes: Bytes, b: byte, i: nat)
    requires i < |bytes| && bytes[i] == b && b !in bytes[..i]
    ensures IndexOf(bytes, b) == Some(i)
  {
    if i > 0 {
      assert bytes[..i][0] == bytes[0];
      assert bytes[1..][..i - 1] == bytes[..i][1..];
      FirstIndex(bytes[1..], b, i - 1);
    }
  }

  /** Content may itself hold line feeds: the first one always ends the preamble. */
  lemma PreambleEndsAtFirstNewline(line: Bytes, content: Bytes)
    requires Newline !in line
    ensures IndexOf(line + [Newline] + content, Newline) == Some(|line|)
  {
    assert (line + [Newline] + content)[..|line|] == line;
    FirstIndex(line + [Newline] + content, Newline, |line|);
  }

  /** The line is an object that names a resource; nothing else is asked of it. */
  predicate NamesResource(lib: Library, line: Bytes) {
    var o := lib.parse(line);
    o.Some? && "resource" in o.value && o.value["resource"].Text? && lib.parseUri(o.value["resource"].text).Some?
  }

  /** What is read from any bytes at all: nothing exactly if they have no line feed or the line before the
      first does not name a resource. A missing or odd type is the empty one, a baseline that is not a
      digest is left out, and the metadata is what other members there are. */
  lemma DecodedExactly(lib: Library, line: Bytes, content: Bytes)
    requires Newline !in line
    ensures Decoded(lib, line) == None
    ensures Decoded(lib, line + [10] + content).Some? <==> NamesResource(lib, line)
    ensures NamesResource(lib, line) ==>
      var o, b := lib.parse(line).value, Decoded(lib, line + [10] + content).value;
      && b.content == content && Some(b.identifier.resource) == lib.parseUri(o["resource"].text)
      && b.identifier.typeId == (if "typeId" in o && o["typeId"].Text? then o["typeId"].text else "")
      && MetaIs(o, b.meta) && BaselineIs(o, b.baseline)
  {
    PreambleEndsAtFirstNewline(line, content);
    var bytes := line + [Newline] + content;
    assert bytes[..|line|] == line && bytes[|line| + 1..] == content;
    if NamesResource(lib, line) {
      MetaIsRest(lib.parse(line).value);
    }
  }

  ghost predicate MetaIs(o: Object, meta: Option<Object>) {
    && (meta.None? <==> forall k :: k in o ==> k in ["resource", "typeId", "plainBaselineSha256"])
    && (meta.Some? ==> forall k :: (k in meta.value <==> k in o && k !in ["resource", "typeId", "plainBaselineSha256"])
                                   && (k in meta.value ==> meta.value[k] == o[k]))
  }

  ghost predicate BaselineIs(o: Object, baseline: Option<string>) {
    var name := "plainBaselineSha256";
    if name in o && o[name].Text? && |o[name].text| == 64 && forall c :: c in o[name].text ==> '0' <= c <= '9' || 'a' <= c <= 'f'
    then baseline == Some(o[name].text) else baseline == None
  }

  lemma MetaIsRest(o: Object)
    ensures MetaIs(o, MetaOf(o)) && BaselineIs(o, BaselineOf(o))
  {
    var rest := o - Reserved;
    assert forall k :: k in rest <==> k in o && k !in ["resource", "typeId", "plainBaselineSha256"];
    if rest == map[] {
      assert forall k :: k in o ==> k !in rest;
    }
    var text := TextOf(o, "plainBaselineSha256");
    if text.Some? {
      assert (forall c :: c in text.value ==> IsHexDigit(c)) <==> forall i :: 0 <= i < |text.value| ==> IsHexDigit(text.value[i]);
    }
  }

  function MetaWithBaseline(b: Backup): Object {
    (if b.meta.Some? then b.meta.value else map[])
    + (if b.baseline.Some? then map["plainBaselineSha256" := Text(b.baseline.value)] else map[])
  }

  /** What decoding the encoding of any backup gives: identifier and content always come back. */
  lemma DecodedEncoding(lib: Library, b: Backup)
    requires lib.Valid()
    ensures Decoded(lib, Line(lib, b) + b.content)
         == Some(Backup(b.identifier, MetaOf(MetaWithBaseline(b)), b.content, BaselineOf(MetaWithBaseline(b))))
  {
    var o := Preamble(lib, b);
    var line := lib.stringify(o);
    PreambleEndsAtFirstNewline(line, b.content);
    var bytes := line + [Newline] + b.content;
    assert bytes[..|line|] == line && bytes[|line| + 1..] == b.content;
    PreambleMembers(lib, b);
  }

  lemma PreambleMembers(lib: Library, b: Backup)
    ensures TextOf(Preamble(lib, b), "resource") == Some(lib.uriText(b.identifier.resource))
    ensures TextOf(Preamble(lib, b), "typeId") == Some(b.identifier.typeId)
    ensures MetaOf(Preamble(lib, b)) == MetaOf(MetaWithBaseline(b))
    ensures BaselineOf(Preamble(lib, b)) == BaselineOf(MetaWithBaseline(b))
  {
    assert Preamble(lib, b) - Reserved == MetaWithBaseline(b) - Reserved;
    assert "plainBaselineSha256" != "resource" && "plainBaselineSha256" != "typeId";
  }

  /** Metadata is absent, or not empty and without the reserved names; the baseline is absent or a digest. */
  ghost predicate Faithful(b: Backup) {
    && (b.meta.Some? ==> b.meta.value != map[] && b.meta.value.Keys !! Reserved)
    && (b.baseline.Some? ==> IsDigest(b.baseline.value))
  }

  /** Exactly such backups come back as they were. */
  lemma RoundTripExactly(lib: Library, b: Backup)
    requires lib.Valid()
    ensures Decoded(lib, Line(lib, b) + b.content) == Some(b) <==> Faithful(b)
  {
    DecodedEncoding(lib, b);
    MetaComesBack(b);
    if b.meta.Some? ==> b.meta.value.Keys !! Reserved {
      BaselineComesBack(b);
    }
  }

  lemma MetaComesBack(b: Backup)
    ensures MetaOf(MetaWithBaseline(b)) == b.meta <==> (b.meta.Some? ==> b.meta.value != map[] && b.meta.value.Keys !! Reserved)
  {
    var rest := MetaWithBaseline(b) - Reserved;
    if b.meta.None? {
      assert rest == map[];
    } else {
      assert rest == b.meta.value - Reserved;
      if b.meta.value.Keys !! Reserved {
        assert rest == b.meta.value;
      } else {
        var k :| k in b.meta.value.Keys && k in Reserved;
        assert k !in rest;
      }
    }
  }

  lemma BaselineComesBack(b: Backup)
    requires b.meta.Some? ==> b.meta.value.Keys !! Reserved
    ensures BaselineOf(MetaWithBaseline(b)) == b.baseline <==> (b.baseline.Some? ==> IsDigest(b.baseline.value))
  {
  }
}
