/** The status payload `update_json_response` renders for each accepted
    connection: a fixed JSON document whose description text carries the
    client's IP address, refused (the process exits) when it does not fit a
    single-byte length prefix. */
module StatusJson {
  import opened CText

  const MaxPlayers: nat := 8
  const OnlinePlayers: nat := 6

  /** `char description[50]` */
  const DescriptionCapacity: nat := 50
  /** `static char buffer[200]` */
  const ScratchCapacity: nat := 200
  /** `0xFF >> 1`: the largest length a one-byte length prefix can carry here */
  const MaxJsonLength: nat := 127
  /** `json_response_buffer[0xFF]` */
  const ResponseCapacity: nat := 255

  /** The description template `"Your IP is: %s"` before its `%s`. */
  const DescriptionPrefix: string := "Your IP is: "

  // The JSON template, cut at its two `%d` and its `%s`.
  const VersionPart: string := "{\"version\":{\"name\":\"1.21\","
  const ProtocolPart: string := "\"protocol\":767},"
  const MaxPart: string := "\"players\":{\"max\":"
  const OnlinePart: string := ",\"online\":"
  const TextPart: string := "},\"description\":{\"text\":\""
  const ClosePart: string := "\"}}"

  /** The description `snprintf` leaves in the 50-byte buffer for `ip`. */
  function Description(ip: CString): (d: seq<byte>)
    ensures |d| < DescriptionCapacity && NoNul(d)
  {
    AsciiHasNoNul(DescriptionPrefix);
    NoNulConcat(Ascii(DescriptionPrefix), ip);
    SnprintfReadsBack(seq(DescriptionCapacity, _ => NUL), Ascii(DescriptionPrefix) + ip);
    CStr(Snprintf(seq(DescriptionCapacity, _ => NUL), Ascii(DescriptionPrefix) + ip))
  }

  /** The JSON template with its placeholders filled in. */
  function JsonText(maxPlayers: nat, online: nat, text: seq<byte>): (r: seq<byte>)
    ensures |r| == 97 + |Decimal(maxPlayers)| + |Decimal(online)| + |text|
    ensures r[|r| - 3 - |text|..|r| - 3] == text
  {
    Ascii(VersionPart) + Ascii(ProtocolPart) + Ascii(MaxPart) + Decimal(maxPlayers)
    + Ascii(OnlinePart) + Decimal(online) + Ascii(TextPart) + text + Ascii(ClosePart)
  }

  datatype AbortReason = ScratchOverflow | TooLongForFrame

  /** What rendering decides: the JSON to store, or `exit(EXIT_FAILURE)`. */
  datatype Rendered = Ok(json: seq<byte>) | Abort(reason: AbortReason)

  /** `update_json_response(ip)`: format the description, fill the template
      into the 200-byte scratch buffer and refuse what is too long. */
  function Render(ip: CString): (r: Rendered)
    ensures r.Ok? ==> |r.json| <= MaxJsonLength && NoNul(r.json)
  {
    DescriptionShape(ip);
    JsonTextHasNoNul(Description(ip));
    var text := JsonText(MaxPlayers, OnlinePlayers, Description(ip));
    var written := |text|;
    if written >= ScratchCapacity then Abort(ScratchOverflow)
    else if written > MaxJsonLength then Abort(TooLongForFrame)
    else Ok(text)
  }

  /** Rendering succeeds exactly for IPs of at most 16 bytes, and then the
      description is `"Your IP is: " + ip` uncut; otherwise the process exits
      because the payload is too long for the frame, never because the
      scratch buffer would overflow. */
  lemma RenderContent(ip: CString)
    ensures Render(ip).Ok? <==> |ip| <= 16
    ensures Render(ip).Abort? ==> Render(ip).reason == TooLongForFrame
    ensures Render(ip).Ok? ==> Render(ip).json == JsonText(MaxPlayers, OnlinePlayers, Ascii(DescriptionPrefix) + ip)
    ensures Render(ip).Ok? ==> |Render(ip).json| == 111 + |ip|
  {
    DescriptionShape(ip);
  }

  /** The description is `"Your IP is: " + ip` cut to 49 bytes. */
  lemma DescriptionShape(ip: CString)
    ensures Description(ip) == (Ascii(DescriptionPrefix) + ip)[..Min(12 + |ip|, DescriptionCapacity - 1)]
    ensures |JsonText(MaxPlayers, OnlinePlayers, Description(ip))| == 99 + |Description(ip)|
    ensures NoNul(Description(ip))
  {
    var full := Ascii(DescriptionPrefix) + ip;
    AsciiHasNoNul(DescriptionPrefix);
    NoNulConcat(Ascii(DescriptionPrefix), ip);
    SnprintfReadsBack(seq(DescriptionCapacity, _ => NUL), full);
    var d := Description(ip);
    forall i | 0 <= i < |d| ensures d[i] != NUL {
      assert full[i] in full;
    }
    assert Decimal(MaxPlayers) == ['8' as int];
    assert Decimal(OnlinePlayers) == ['6' as int];
  }

  /** The rendered text never reaches the 200-byte scratch capacity, so the
      first size check of `update_json_response` can never fire. */
  lemma ScratchCheckNeverFires(ip: CString)
    ensures |JsonText(MaxPlayers, OnlinePlayers, Description(ip))| <= 148 < ScratchCapacity
  {
    DescriptionShape(ip);
  }

  /** Every fixed part of the template is NUL-free. */
  lemma TemplateHasNoNul()
    ensures NoNul(Ascii(VersionPart)) && NoNul(Ascii(ProtocolPart)) && NoNul(Ascii(MaxPart))
    ensures NoNul(Ascii(OnlinePart)) && NoNul(Ascii(TextPart)) && NoNul(Ascii(ClosePart))
    ensures NoNul(Decimal(MaxPlayers)) && NoNul(Decimal(OnlinePlayers))
  {
    HeadHasNoNul();
    AsciiHasNoNul(OnlinePart);
    AsciiHasNoNul(TextPart);
    AsciiHasNoNul(ClosePart);
    assert Decimal(MaxPlayers) == ['8' as int];
    assert Decimal(OnlinePlayers) == ['6' as int];
  }

  lemma HeadHasNoNul()
    ensures NoNul(Ascii(VersionPart)) && NoNul(Ascii(ProtocolPart)) && NoNul(Ascii(MaxPart))
  {
    AsciiHasNoNul(VersionPart);
    AsciiHasNoNul(ProtocolPart);
    AsciiHasNoNul(MaxPart);
  }

  /** So a JSON rendered from a C string is a C string. */
  lemma JsonTextHasNoNul(text: seq<byte>)
    requires NoNul(text)
    ensures NoNul(JsonText(MaxPlayers, OnlinePlayers, text))
  {
    TemplateHasNoNul();
    var a := Ascii(VersionPart) + Ascii(ProtocolPart);
    NoNulConcat(Ascii(VersionPart), Ascii(ProtocolPart));
    NoNulConcat(a, Ascii(MaxPart));
    a := a + Ascii(MaxPart);
    NoNulConcat(a, Decimal(MaxPlayers));
    a := a + Decimal(MaxPlayers);
    NoNulConcat(a, Ascii(OnlinePart));
    a := a + Ascii(OnlinePart);
    NoNulConcat(a, Decimal(OnlinePlayers));
    a := a + Decimal(OnlinePlayers);
    NoNulConcat(a, Ascii(TextPart));
    a := a + Ascii(TextPart);
    NoNulConcat(a, text);
    a := a + text;
    NoNulConcat(a, Ascii(ClosePart));
  }

  /** Boundary: the longest accepted description gives a 127-byte payload,
      one more byte of IP gives 128 and the process exits. */
  lemma RenderBoundary(ip: CString)
    ensures |ip| == 16 ==> Render(ip).Ok? && |Render(ip).json| == MaxJsonLength
    ensures |ip| == 17 ==> Render(ip) == Abort(TooLongForFrame)
    ensures |JsonText(MaxPlayers, OnlinePlayers, Description(ip))| > MaxJsonLength <==> Render(ip).Abort?
  {
    DescriptionShape(ip);
    RenderContent(ip);
  }
}
