/**
 * Share links: which lines of a raw list the parser keeps, and what the server selector later
 * reads out of them. Both use the same URL, base64 and JSON decoders, which are parameters here.
 */
module LinkParser {
  import opened Net
  import opened Text
  import ServerSelector

  const VLESS := "vless://"
  const VMESS := "vmess://"
  const DEFAULT_PORT := "443"

  datatype Url = Url(hostname: string, port: string)

  /** A JSON document; keys are in the case-folded form in which the decoder matches field tags. */
  datatype Json = Malformed | NotObject | Object(members: seq<(string, Value)>)
  datatype Value = Text(text: string) | Null | Other

  datatype Decoders = Decoders(
    url: string -> Option<Url>,
    standard: string -> Option<string>,
    urlSafe: string -> Option<string>,
    unpadded: string -> Option<string>,
    json: string -> Json)

  const ADDRESS_FIELDS: set<string> := {"add", "port"}
  const CONFIG_FIELDS: set<string> :=
    {"v", "ps", "add", "port", "id", "aid", "scy", "net", "type", "host", "path", "tls", "sni", "alpn"}

  // ----- text -----

  function TrimSpace(s: string): string {
    Trim(s, CharBlanks())
  }

  /** Trimming a trimmed line changes nothing. */
  lemma TrimSpaceStable(s: string)
    ensures TrimSpace(TrimSpace(s)) == TrimSpace(s)
  {
    CharBlanksNonEmpty();
    TrimStable(s, CharBlanks());
  }

  predicate HasPrefix(s: string, prefix: string) {
    prefix <= s
  }

  function TrimPrefix(s: string, prefix: string): string {
    if HasPrefix(s, prefix) then s[|prefix|..] else s
  }

  /** strings.Split at newlines. */
  function Lines(raw: string): seq<string> {
    if raw == [] then [""]
    else if raw[0] == '\n' then [""] + Lines(raw[1..])
    else
      var rest := Lines(raw[1..]);
      if rest == [] then [[raw[0]]] else [[raw[0]] + rest[0]] + rest[1..]
  }

  function Join(lines: seq<string>): string {
    if lines == [] then "" else if |lines| == 1 then lines[0] else lines[0] + "\n" + Join(lines[1..])
  }

  /** Splitting loses nothing, and no line keeps a newline. */
  lemma {:induction false} LinesRoundTrip(raw: string)
    ensures Lines(raw) != [] && Join(Lines(raw)) == raw
    ensures forall i :: 0 <= i < |Lines(raw)| ==> '\n' !in Lines(raw)[i]
  {
    if raw != [] {
      LinesRoundTrip(raw[1..]);
      var rest, all := Lines(raw[1..]), Lines(raw);
      if raw[0] == '\n' {
        assert all[1..] == rest;
        assert Join(all) == "" + "\n" + raw[1..];
      } else {
        assert all[1..] == rest[1..];
        assert |rest| > 1 ==> Join(all) == [raw[0]] + rest[0] + "\n" + Join(rest[1..]);
        assert Join(all) == [raw[0]] + Join(rest);
      }
    }
  }

  // ----- decoding -----

  /** Standard base64, then URL-safe, then unpadded. */
  function DecodeBase64(d: Decoders, payload: string): Option<string> {
    if d.standard(payload).Some? then d.standard(payload)
    else if d.urlSafe(payload).Some? then d.urlSafe(payload)
    else d.unpadded(payload)
  }

  datatype Decoded = Decoded(fields: map<string, string>, failed: bool)

  /**
   * json.Unmarshal into a struct of strings: unknown keys are skipped, null leaves a field alone, and
   * anything else but a string fails.
   */
  function Fill(members: seq<(string, Value)>, wanted: set<string>, d: Decoded): Decoded {
    if members == [] then d
    else
      var (key, value) := members[0];
      Fill(members[1..], wanted,
           if key !in wanted || value == Null then d
           else if value.Text? then d.(fields := d.fields[key := value.text])
           else d.(failed := true))
  }

  function Unmarshal(doc: Json, wanted: set<string>): Option<map<string, string>> {
    if !doc.Object? then None
    else
      var d := Fill(doc.members, wanted, Decoded(map[], false));
      if d.failed then None else Some(d.fields)
  }

  function Field(fields: map<string, string>, key: string): string {
    if key in fields then fields[key] else ""
  }

  predicate AgreeOn(keys: set<string>, a: map<string, string>, b: map<string, string>) {
    forall k :: k in keys ==> (k in a <==> k in b) && (k in a ==> a[k] == b[k])
  }

  lemma {:induction false} FillNarrows(members: seq<(string, Value)>, few: set<string>, many: set<string>,
                                       d: Decoded, e: Decoded)
    requires few <= many && (d.failed ==> e.failed)
    requires AgreeOn(few, d.fields, e.fields)
    ensures var d', e' := Fill(members, few, d), Fill(members, many, e);
            && (d'.failed ==> e'.failed)
            && AgreeOn(few, d'.fields, e'.fields)
  {
    if members != [] {
      var (key, value) := members[0];
      var d' := if key !in few || value == Null then d
                else if value.Text? then d.(fields := d.fields[key := value.text]) else d.(failed := true);
      var e' := if key !in many || value == Null then e
                else if value.Text? then e.(fields := e.fields[key := value.text]) else e.(failed := true);
      FillNarrows(members[1..], few, many, d', e');
    }
  }

  /** A document that decodes into the wider struct decodes into the narrower one, with the same values. */
  lemma UnmarshalNarrows(doc: Json, few: set<string>, many: set<string>)
    requires few <= many && Unmarshal(doc, many).Some?
    ensures Unmarshal(doc, few).Some?
    ensures forall k :: k in few ==> Field(Unmarshal(doc, few).value, k) == Field(Unmarshal(doc, many).value, k)
  {
    FillNarrows(doc.members, few, many, Decoded(map[], false), Decoded(map[], false));
  }

  predicate TextFor(m: (string, Value), key: string) {
    m.0 == key && m.1.Text?
  }

  /** Decoding fails exactly on a wanted field whose value is neither a string nor null. */
  lemma {:induction false} FillFails(members: seq<(string, Value)>, wanted: set<string>, d: Decoded)
    ensures Fill(members, wanted, d).failed <==>
            d.failed || exists m :: m in members && m.0 in wanted && m.1 == Other
  {
    if members != [] {
      var (key, value) := members[0];
      FillFails(members[1..], wanted,
                if key !in wanted || value == Null then d
                else if value.Text? then d.(fields := d.fields[key := value.text])
                else d.(failed := true));
      assert forall m :: m in members <==> m == members[0] || m in members[1..];
    }
  }

  /** A wanted field keeps its value when no member gives it one, and otherwise has that of the last that does. */
  lemma {:induction false} FillValue(members: seq<(string, Value)>, wanted: set<string>, d: Decoded,
                                     key: string, i: nat)
    requires key in wanted && i <= |members|
    requires forall j :: i < j < |members| ==> !TextFor(members[j], key)
    requires i < |members| ==> TextFor(members[i], key)
    requires i == |members| ==> forall j :: 0 <= j < |members| ==> !TextFor(members[j], key)
    ensures Field(Fill(members, wanted, d).fields, key) ==
            if i < |members| then members[i].1.text else Field(d.fields, key)
  {
    if members != [] {
      var (k, value) := members[0];
      var d' := if k !in wanted || value == Null then d
                else if value.Text? then d.(fields := d.fields[k := value.text])
                else d.(failed := true);
      assert forall j :: 0 <= j < |members[1..]| ==> members[1..][j] == members[j + 1];
      FillValue(members[1..], wanted, d', key, if i == 0 then |members[1..]| else i - 1);
    }
  }

  /** The document gives the wanted fields strings or nulls only. */
  predicate Readable(doc: Json, wanted: set<string>) {
    doc.Object? && forall m :: m in doc.members && m.0 in wanted ==> m.1 != Other
  }

  /** The document's last string for the field, "" without one. */
  ghost predicate Gives(doc: Json, key: string, text: string)
    requires doc.Object?
  {
    || (text == "" && forall j :: 0 <= j < |doc.members| ==> !TextFor(doc.members[j], key))
    || exists i :: 0 <= i < |doc.members| && doc.members[i] == (key, Text(text))
         && forall j :: i < j < |doc.members| ==> !TextFor(doc.members[j], key)
  }

  lemma UnmarshalMeans(doc: Json, wanted: set<string>, key: string, text: string)
    requires key in wanted
    ensures Unmarshal(doc, wanted).Some? <==> Readable(doc, wanted)
    ensures Readable(doc, wanted) ==> (Gives(doc, key, text) <==> Field(Unmarshal(doc, wanted).value, key) == text)
  {
    if doc.Object? {
      var empty := Decoded(map[], false);
      FillFails(doc.members, wanted, empty);
      var i := LastText(doc.members, key);
      FillValue(doc.members, wanted, empty, key, i);
      if i < |doc.members| {
        assert TextFor(doc.members[i], key);
        assert doc.members[i] == (key, Text(doc.members[i].1.text));
      }
    }
  }

  lemma {:induction false} LastText(members: seq<(string, Value)>, key: string) returns (i: nat)
    ensures i <= |members| && forall j :: i < j < |members| ==> !TextFor(members[j], key)
    ensures i < |members| ==> TextFor(members[i], key)
    ensures i == |members| ==> forall j :: 0 <= j < |members| ==> !TextFor(members[j], key)
  {
    i := |members|;
    var k := |members|;
    while k > 0
      invariant 0 <= k <= |members| && i == |members|
      invariant forall j :: k <= j < |members| ==> !TextFor(members[j], key)
    {
      k := k - 1;
      if TextFor(members[k], key) {
        i := k;
        return;
      }
    }
  }

  /** A payload decodes if any of the three codecs reads it, as the first of them that does. */
  lemma DecodesIff(d: Decoders, payload: string, decoded: string)
    ensures DecodeBase64(d, payload).Some? <==>
            d.standard(payload).Some? || d.urlSafe(payload).Some? || d.unpadded(payload).Some?
    ensures DecodeBase64(d, payload) == Some(decoded) <==>
            || d.standard(payload) == Some(decoded)
            || (d.standard(payload) == None && d.urlSafe(payload) == Some(decoded))
            || (d.standard(payload) == d.urlSafe(payload) == None && d.unpadded(payload) == Some(decoded))
  {
  }

  // ----- the parser -----

  predicate IsValidVless(d: Decoders, link: string) {
    && HasPrefix(link, VLESS)
    && d.url(link).Some?
    && d.url(link).value.hostname != "" && d.url(link).value.port != ""
  }

  function Payload(link: string): string {
    TrimSpace(TrimPrefix(link, VMESS))
  }

  /** The payload decoded into a struct with the wanted fields. */
  function DecodeVmess(d: Decoders, link: string, wanted: set<string>): Option<map<string, string>> {
    if Payload(link) == "" then None
    else
      var decoded := DecodeBase64(d, Payload(link));
      if decoded.None? then None else Unmarshal(d.json(decoded.value), wanted)
  }

  predicate IsValidVmess(d: Decoders, link: string) {
    && HasPrefix(link, VMESS)
    && var config := DecodeVmess(d, link, CONFIG_FIELDS);
       config.Some? && Field(config.value, "add") != "" && Field(config.value, "port") != ""
  }

  predicate Kept(d: Decoders, line: string) {
    && line != "" && !HasPrefix(line, "#")
    && (IsValidVless(d, line) || IsValidVmess(d, line))
  }

  function KeptOf(d: Decoders, lines: seq<string>): seq<string> {
    if lines == [] then []
    else
      var line := TrimSpace(lines[|lines| - 1]);
      KeptOf(d, lines[..|lines| - 1]) + if Kept(d, line) then [line] else []
  }

  lemma OneMoreLine(d: Decoders, lines: seq<string>, i: nat)
    requires i < |lines|
    ensures var line := TrimSpace(lines[i]);
            KeptOf(d, lines[..i + 1]) == KeptOf(d, lines[..i]) + if Kept(d, line) then [line] else []
  {
    assert lines[..i + 1][..i] == lines[..i];
  }

  method ParseLinksFromRaw(d: Decoders, rawText: string) returns (links: seq<string>)
    ensures links == KeptOf(d, Lines(rawText))
  {
    links := [];
    var lines := Lines(rawText);
    for i := 0 to |lines|
      invariant links == KeptOf(d, lines[..i])
    {
      OneMoreLine(d, lines, i);
      var line := TrimSpace(lines[i]);
      if line == "" || HasPrefix(line, "#") {
        continue;
      }
      if IsValidVless(d, line) || IsValidVmess(d, line) {
        links := links + [line];
      }
    }
    assert lines[..|lines|] == lines;
  }

  predicate SomeLine(lines: seq<string>, link: string) {
    exists i :: 0 <= i < |lines| && TrimSpace(lines[i]) == link
  }

  lemma SomeLineSplit(front: seq<string>, last: string, link: string)
    ensures SomeLine(front + [last], link) <==> SomeLine(front, link) || TrimSpace(last) == link
  {
    var lines := front + [last];
    if i :| 0 <= i < |front| && TrimSpace(front[i]) == link {
      assert TrimSpace(lines[i]) == link;
    }
    if TrimSpace(last) == link {
      assert TrimSpace(lines[|front|]) == link;
    }
    if i :| 0 <= i < |lines| && TrimSpace(lines[i]) == link {
      assert i < |front| ==> TrimSpace(front[i]) == link;
    }
  }

  /** A link is returned exactly when some line, trimmed, is that link and is kept. */
  lemma {:induction false} KeptMembers(d: Decoders, lines: seq<string>, link: string)
    ensures link in KeptOf(d, lines) <==> Kept(d, link) && SomeLine(lines, link)
  {
    if lines != [] {
      var front, last := lines[..|lines| - 1], lines[|lines| - 1];
      KeptMembers(d, front, link);
      assert lines == front + [last];
      SomeLineSplit(front, last, link);
      LastKept(d, front, last, link);
    }
  }

  lemma LastKept(d: Decoders, front: seq<string>, last: string, link: string)
    ensures link in KeptOf(d, front + [last]) <==>
              link in KeptOf(d, front) || (TrimSpace(last) == link && Kept(d, link))
  {
    assert (front + [last])[..|front|] == front;
  }

  /** The links of a raw text. */
  function Parsed(d: Decoders, rawText: string): seq<string> {
    KeptOf(d, Lines(rawText))
  }

  lemma {:induction false} KeptAppend(d: Decoders, a: seq<string>, b: seq<string>)
    ensures KeptOf(d, a + b) == KeptOf(d, a) + KeptOf(d, b)
  {
    if b == [] {
      assert a + b == a;
    } else {
      var k := |b| - 1;
      assert (a + b)[..|a + b| - 1] == a + b[..k] && (a + b)[|a + b| - 1] == b[k];
      KeptAppend(d, a, b[..k]);
    }
  }

  lemma {:induction false} LinesOneLine(line: string)
    requires '\n' !in line
    ensures Lines(line) == [line]
  {
    if line != [] {
      LinesOneLine(line[1..]);
      assert [line[0]] + line[1..] == line;
    }
  }

  lemma {:induction false} LinesAppend(a: string, b: string)
    ensures Lines(a + "\n" + b) == Lines(a) + Lines(b)
  {
    if a == [] {
      assert ([] + "\n" + b)[1..] == b;
    } else {
      assert (a + "\n" + b)[1..] == a[1..] + "\n" + b && (a + "\n" + b)[0] == a[0];
      LinesAppend(a[1..], b);
      LinesRoundTrip(a[1..]);
    }
  }

  /** Texts joined by a newline yield the links of the one, then those of the other. */
  lemma ParsedJoins(d: Decoders, a: string, b: string)
    ensures Parsed(d, a + "\n" + b) == Parsed(d, a) + Parsed(d, b)
  {
    LinesAppend(a, b);
    KeptAppend(d, Lines(a), Lines(b));
  }

  /** A link the parser may return, in terms of its decoders. */
  ghost predicate Valid(d: Decoders, link: string) {
    || ("vless://" <= link && exists u :: d.url(link) == Some(u) && u.hostname != "" && u.port != "")
    || ("vmess://" <= link && TrimSpace(link[8..]) != "" && exists decoded, add, port ::
          && DecodeBase64(d, TrimSpace(link[8..])) == Some(decoded)
          && Readable(d.json(decoded),
               {"v", "ps", "add", "port", "id", "aid", "scy", "net", "type", "host", "path", "tls", "sni", "alpn"})
          && Gives(d.json(decoded), "add", add) && add != ""
          && Gives(d.json(decoded), "port", port) && port != "")
  }

  lemma KeptIsValid(d: Decoders, link: string)
    ensures Kept(d, link) <==> Valid(d, link)
  {
    PrefixesDiffer(link);
    if "vmess://" <= link && Payload(link) != "" && DecodeBase64(d, Payload(link)).Some? {
      var decoded := DecodeBase64(d, Payload(link)).value;
      var doc := d.json(decoded);
      UnmarshalMeans(doc, CONFIG_FIELDS, "add", "");
      if Readable(doc, CONFIG_FIELDS) {
        var config := Unmarshal(doc, CONFIG_FIELDS).value;
        forall text
          ensures Gives(doc, "add", text) <==> Field(config, "add") == text
          ensures Gives(doc, "port", text) <==> Field(config, "port") == text
        {
          UnmarshalMeans(doc, CONFIG_FIELDS, "add", text);
          UnmarshalMeans(doc, CONFIG_FIELDS, "port", text);
        }
        assert Gives(doc, "add", Field(config, "add")) && Gives(doc, "port", Field(config, "port"));
      }
    }
  }

  /** A line yields the text between its blanks, if that is a valid link; so a CRLF costs no link. */
  lemma ParsedLine(d: Decoders, lead: string, text: string, trail: string)
    requires AllSpace(lead) && AllSpace(trail) && '\n' !in lead + text + trail
    requires text != "" && !IsSpace(text[0]) && !IsSpace(text[|text| - 1])
    ensures Parsed(d, lead + text + trail) == if Valid(d, text) then [text] else []
  {
    var line := lead + text + trail;
    LinesOneLine(line);
    TrimSurrounded(lead, text, trail);
    KeptIsValid(d, text);
    assert TrimSpace(line) == text;
    OneMoreLine(d, [line], 0);
    assert [line][..1] == [line] && [line][..0] == [];
  }

  // ----- the extractor of the server selector -----

  datatype Target = Target(host: string, port: string)

  function ExtractVmess(d: Decoders, link: string): Option<Target> {
    var config := DecodeVmess(d, link, ADDRESS_FIELDS);
    if config.None? || Field(config.value, "add") == "" then None
    else
      var port := Field(config.value, "port");
      Some(Target(Field(config.value, "add"), if port == "" then DEFAULT_PORT else port))
  }

  function ExtractHostPort(d: Decoders, untrimmed: string): Option<Target> {
    var link := TrimSpace(untrimmed);
    if HasPrefix(link, VMESS) then ExtractVmess(d, link)
    else if !HasPrefix(link, VLESS) || d.url(link).None? || d.url(link).value.hostname == "" then None
    else
      var u := d.url(link).value;
      Some(Target(u.hostname, if u.port == "" then DEFAULT_PORT else u.port))
  }

  /** The port the link itself names, "" if none. */
  function NamedPort(d: Decoders, link: string): string {
    if HasPrefix(link, VMESS) then
      var config := DecodeVmess(d, link, ADDRESS_FIELDS);
      if config.None? then "" else Field(config.value, "port")
    else if d.url(link).None? then "" else d.url(link).value.port
  }

  lemma PrefixesDiffer(link: string)
    ensures !(HasPrefix(link, VMESS) && HasPrefix(link, VLESS))
    ensures HasPrefix(link, VMESS) || HasPrefix(link, VLESS) ==> link != "" && !HasPrefix(link, "#")
  {
    assert HasPrefix(link, VMESS) ==> |link| > 1 && link[0] == 'v' && link[1] == 'm';
    assert HasPrefix(link, VLESS) ==> |link| > 1 && link[0] == 'v' && link[1] == 'l';
  }

  /**
   * On a trimmed line the parser keeps exactly what the extractor reads with a port of the link's
   * own, except that a VMess document must decode into the whole configuration.
   */
  lemma KeptIff(d: Decoders, line: string)
    requires TrimSpace(line) == line
    ensures Kept(d, line) <==>
              && ExtractHostPort(d, line).Some?
              && NamedPort(d, line) != ""
              && (HasPrefix(line, VMESS) ==> DecodeVmess(d, line, CONFIG_FIELDS).Some?)
    ensures Kept(d, line) ==>
              && ExtractHostPort(d, line).value.host != ""
              && ExtractHostPort(d, line).value.port == NamedPort(d, line)
  {
    PrefixesDiffer(line);
    if HasPrefix(line, VMESS) && DecodeVmess(d, line, CONFIG_FIELDS).Some? {
      UnmarshalNarrows(d.json(DecodeBase64(d, Payload(line)).value), ADDRESS_FIELDS, CONFIG_FIELDS);
    }
  }

  /** What is read out of a VLESS link: the URL's host name, and its port or 443. */
  lemma VlessExtract(d: Decoders, link: string, host: string, port: string)
    requires TrimSpace(link) == link && "vless://" <= link
    ensures ExtractHostPort(d, link) == Some(Target(host, port)) <==>
              exists u :: d.url(link) == Some(u) && u.hostname == host != ""
                && port == if u.port == "" then "443" else u.port
  {
    PrefixesDiffer(link);
  }

  /** What is read out of a VMess link: the document's "add", and its "port" or 443. */
  lemma VmessExtract(d: Decoders, link: string, host: string, port: string, decoded: string)
    requires TrimSpace(link) == link && "vmess://" <= link && TrimSpace(link[8..]) != ""
    requires DecodeBase64(d, TrimSpace(link[8..])) == Some(decoded)
    ensures ExtractHostPort(d, link) == Some(Target(host, port)) <==>
              && Readable(d.json(decoded), {"add", "port"})
              && Gives(d.json(decoded), "add", host) && host != ""
              && exists named :: Gives(d.json(decoded), "port", named) && port == if named == "" then "443" else named
  {
    var doc := d.json(decoded);
    assert ADDRESS_FIELDS == {"add", "port"};
    assert Payload(link) == TrimSpace(link[8..]);
    assert ExtractHostPort(d, link) == ExtractVmess(d, link);
    UnmarshalMeans(doc, ADDRESS_FIELDS, "add", host);
    UnmarshalMeans(doc, ADDRESS_FIELDS, "port", "");
    if Readable(doc, ADDRESS_FIELDS) {
      var config := Unmarshal(doc, ADDRESS_FIELDS).value;
      forall named
        ensures Gives(doc, "port", named) <==> Field(config, "port") == named
      {
        UnmarshalMeans(doc, ADDRESS_FIELDS, "port", named);
      }
      assert Gives(doc, "port", Field(config, "port"));
    }
  }

  /** Every link the parser returns has a host and a port of its own, however often it is trimmed on the way. */
  lemma ParsedLinksExtract(d: Decoders, rawText: string, link: string)
    requires link in KeptOf(d, Lines(rawText))
    ensures ExtractHostPort(d, link).Some?
    ensures ExtractHostPort(d, link).value.host != ""
    ensures ExtractHostPort(d, link).value.port == NamedPort(d, link) != ""
  {
    KeptMembers(d, Lines(rawText), link);
    var i :| 0 <= i < |Lines(rawText)| && TrimSpace(Lines(rawText)[i]) == link;
    TrimSpaceStable(Lines(rawText)[i]);
    KeptIff(d, link);
  }

  /** Whether each link's check comes without info is decided by the extractor. */
  predicate AnswersFor(d: Decoders, links: seq<string>, answers: seq<ServerSelector.Answer>) {
    && |answers| == |links|
    && forall i :: 0 <= i < |answers| ==> (answers[i].NoInfo? <==> ExtractHostPort(d, links[i]).None?)
  }

  /** So a selection over parsed links never reads a field of a missing info, in any interleaving. */
  lemma ParsedLinksNeverCrash(d: Decoders, rawText: string, links: seq<string>, p: ServerSelector.Pool,
                              run: seq<ServerSelector.Actor>)
    requires AnswersFor(d, links, p.answers)
    requires ServerSelector.After(p, ServerSelector.Init(p), run).Some?
    ensures (forall i :: 0 <= i < |links| ==> links[i] in KeptOf(d, Lines(rawText))) ==>
              !ServerSelector.After(p, ServerSelector.Init(p), run).value.crashed
  {
    ServerSelector.PoolSafe(p, run);
    if forall i :: 0 <= i < |links| ==> links[i] in KeptOf(d, Lines(rawText)) {
      forall i | 0 <= i < |p.answers|
        ensures p.answers[i] != ServerSelector.NoInfo
      {
        ParsedLinksExtract(d, rawText, links[i]);
      }
    }
  }

  /** Over any other links, a complete selection crashes exactly when one of them does not extract. */
  lemma SelectionCrashesIff(d: Decoders, links: seq<string>, maxConcurrent: int, p: ServerSelector.Pool,
                            run: seq<ServerSelector.Actor>)
    requires AnswersFor(d, links, p.answers)
    requires ServerSelector.MakeSemaphore(ServerSelector.NewServerSelector(maxConcurrent)) == Some(p.capacity)
    requires && ServerSelector.After(p, ServerSelector.Init(p), run).Some?
             && ServerSelector.WellFormed(p, ServerSelector.After(p, ServerSelector.Init(p), run).value)
             && ServerSelector.Complete(p, ServerSelector.After(p, ServerSelector.Init(p), run).value)
    ensures ServerSelector.After(p, ServerSelector.Init(p), run).value.crashed <==>
              exists i :: 0 <= i < |links| && ExtractHostPort(d, links[i]).None?
  {
    ServerSelector.CompleteRunCrashesIff(maxConcurrent, p, run);
    if i :| 0 <= i < |links| && ExtractHostPort(d, links[i]).None? {
      assert p.answers[i] == ServerSelector.NoInfo;
    }
  }
}
