/**
 * `Growl::GNTP`: the client side of the Growl Notification Transport
 * Protocol 1.0. A client keeps an ordered registry of notifications, builds
 * REGISTER and NOTIFY requests as CRLF-separated header lines followed by
 * resource blocks, and can authenticate (SHA-512 key hash) and encrypt
 * (DES, 3DES or AES in CBC mode) them. SHA-512, the block ciphers, the
 * random salt and IV and the UUID generator are parameters; the socket is
 * modelled by the list of requests handed to it.
 */
module Gntp {
  import opened Results
  import opened Wire
  import opened OrderedMaps
  import LegacyGrowl
  import XGrowlResource

  /** The TCP port a GNTP server listens on. */
  const PORT := 23053

  // ---------------------------------------------------------------------------
  // Registry entries, headers and errors

  /** An icon: a URI the server fetches, or image bytes sent along as a resource. */
  datatype Icon = UriIcon(uri: Bytes) | DataIcon(data: Bytes)

  /** The `[display_name, icon, enabled]` triple `add_notification` stores under a name. */
  datatype Registration = Registration(displayName: Option<Bytes>, icon: Option<Icon>, enabled: bool)

  /** A header line `"Name: value"`, or a `nil` entry, which joins as an empty line. */
  datatype Header = Field(name: string, value: Bytes) | Blank

  /** What `notify` derives from its URL and block arguments: nothing, `true`, or the URL. */
  datatype Callback = NoCallback | BlockCallback | UrlCallback(url: Bytes)

  /** The OpenSSL ciphers of `ENCRYPTION_ALGORITHMS`. */
  datatype Algorithm = DesCbc | DesEde3Cbc | Aes192Cbc

  /** A cipher set up for encryption with a key and an IV. */
  datatype CipherState = CipherState(algorithm: Algorithm, key: Bytes, iv: Bytes)

  /** What building a request raises. */
  datatype Error =
    | UnknownEncryptionMode(mode: Bytes)   // Growl::GNTP::Error from `cipher`
    | MissingKey                           // TypeError: encrypting without a password leaves the key nil
    | InvalidPriority(priority: int)       // ArgumentError from `packet_notify`
    | AmbiguousCallback                    // ArgumentError from `notify`

  /** The message of each error, as the source words it (OpenSSL words the TypeError). */
  function Message(e: Error): Bytes
  {
    match e
    case UnknownEncryptionMode(mode) => A("unknown GNTP encryption mode ") + mode
    case MissingKey => []
    case InvalidPriority(p) => A("invalid priority level ") + IntToDecimal(p)
    case AmbiguousCallback => A("provide either a url or a block for callbacks, not both")
  }

  /** A SHA-512 digest: 64 bytes. */
  type Digest = d: Bytes | |d| == 64 witness seq(64, i => 0)

  /** `Digest::SHA512.digest` */
  type Sha512 = Bytes -> Digest

  /** `update` and `final` of a cipher set up with an algorithm, key and IV. */
  type Encipher = (Algorithm, Bytes, Bytes, Bytes) -> Bytes

  const APPLICATION_NAME := "Application-Name"
  const ORIGIN_SOFTWARE_NAME := "Origin-Software-Name"
  const ORIGIN_SOFTWARE_VERSION := "Origin-Software-Version"
  const ORIGIN_PLATFORM_NAME := "Origin-Platform-Name"
  const ORIGIN_PLATFORM_VERSION := "Origin-Platform-Version"
  const CONNECTION := "Connection"
  const APPLICATION_ICON := "Application-Icon"
  const NOTIFICATIONS_COUNT := "Notifications-Count"
  const NOTIFICATION_ID := "Notification-ID"
  const NOTIFICATION_COALESCING_ID := "Notification-Coalescing-ID"
  const NOTIFICATION_NAME := "Notification-Name"
  const NOTIFICATION_DISPLAY_NAME := "Notification-Display-Name"
  const NOTIFICATION_ENABLED := "Notification-Enabled"
  const NOTIFICATION_TITLE := "Notification-Title"
  const NOTIFICATION_TEXT := "Notification-Text"
  const NOTIFICATION_PRIORITY := "Notification-Priority"
  const NOTIFICATION_STICKY := "Notification-Sticky"
  const NOTIFICATION_ICON := "Notification-Icon"
  const NOTIFICATION_CALLBACK_CONTEXT := "Notification-Callback-Context"
  const NOTIFICATION_CALLBACK_CONTEXT_TYPE := "Notification-Callback-Context-Type"
  const NOTIFICATION_CALLBACK_TARGET := "Notification-Callback-Target"
  const IDENTIFIER := "Identifier"
  const LENGTH := "Length"

  /** The text of one header line. */
  function RenderHeader(h: Header): Bytes
  {
    if h.Blank? then [] else A(h.name) + A(": ") + h.value
  }

  function RenderHeaders(hs: seq<Header>): seq<Bytes>
  {
    seq(|hs|, i requires 0 <= i < |hs| => RenderHeader(hs[i]))
  }

  /** Some line of `hs` is a `name` header. */
  predicate HasHeader(hs: seq<Header>, name: string)
  {
    exists h :: h in hs && h.Field? && h.name == name
  }

  // ---------------------------------------------------------------------------
  // key_hash and cipher

  /** What `key_hash` returns: the encryption key, the hex digest of the key, and the salt. */
  datatype KeyHash = KeyHash(key: Digest, hash: Bytes, salt: Bytes)

  /** `key_hash`: the key is SHA-512 of the password followed by the salt; the hash is the hex SHA-512 of the key. */
  function KeyHashOf(password: Bytes, salt: Bytes, sha512: Sha512): (k: KeyHash)
    ensures |k.hash| == 128 && k.salt == salt
  {
    var key := sha512(password + salt);
    KeyHash(key, Hex(sha512(key)), salt)
  }

  /** The key-info token of the information line: `SHA512:<hash>.<hex salt>`. */
  function KeyInfo(k: KeyHash): Bytes
  {
    A("SHA512:") + k.hash + A(".") + Hex(k.salt)
  }

  /**
   * How a receiver takes a key-info token apart: the 128 hex digits after
   * `SHA512:`, a dot, then the hex-encoded salt.
   */
  function ParseKeyInfo(info: Bytes): Option<(Bytes, Bytes)>
  {
    if |info| >= 136 && info[..7] == A("SHA512:") && info[135] == 46 then Some((info[7..135], UnHex(info[136..])))
    else None
  }

  /** A receiver that knows `password` accepts the token: hashing the password with its salt twice gives its hash. */
  predicate Authenticates(password: Bytes, info: Bytes, sha512: Sha512)
  {
    var parsed := ParseKeyInfo(info);
    parsed.Some? && Hex(sha512(sha512(password + parsed.value.1))) == parsed.value.0
  }

  /** The token a client sends carries its hash and salt, and authenticates the client's password. */
  lemma KeyInfoRoundTrip(password: Bytes, salt: Bytes, sha512: Sha512)
    ensures var k := KeyHashOf(password, salt, sha512);
      ParseKeyInfo(KeyInfo(k)) == Some((k.hash, salt)) && Authenticates(password, KeyInfo(k), sha512)
  {
    var k := KeyHashOf(password, salt, sha512);
    var info := KeyInfo(k);
    assert info[..7] == A("SHA512:");
    assert info[7..135] == k.hash;
    assert info[136..] == Hex(salt);
    UnHexOfHex(salt);
  }

  /** `ENCRYPTION_ALGORITHMS[mode]` */
  function EncryptionAlgorithm(mode: Bytes): Option<Algorithm>
  {
    if mode == A("DES") then Some(DesCbc)
    else if mode == A("3DES") then Some(DesEde3Cbc)
    else if mode == A("AES") then Some(Aes192Cbc)
    else None
  }

  /** The `encrypt` mode naming each algorithm. */
  function ModeOf(a: Algorithm): Bytes
  {
    match a
    case DesCbc => A("DES")
    case DesEde3Cbc => A("3DES")
    case Aes192Cbc => A("AES")
  }

  /** The OpenSSL name of each algorithm. */
  function AlgorithmName(a: Algorithm): string
  {
    match a
    case DesCbc => "DES-CBC"
    case DesEde3Cbc => "DES-EDE3-CBC"
    case Aes192Cbc => "AES-192-CBC"
  }

  /** The table maps exactly the three modes, each to its own algorithm. */
  lemma EncryptionAlgorithmInverse(mode: Bytes, a: Algorithm)
    ensures EncryptionAlgorithm(mode) == Some(a) <==> mode == ModeOf(a)
  {
    assert A("DES")[0] == 68 && A("AES")[0] == 65;
  }

  /** `NONE`, or any other mode than the three, has no algorithm. */
  lemma NoneIsNotAnAlgorithm()
    ensures EncryptionAlgorithm(A("NONE")).None?
  {
    assert |A("NONE")| == 4 && A("NONE")[0] == 78 && A("3DES")[0] == 51;
  }

  /**
   * `cipher`: the mode must be in the table, then the key must be present;
   * the IV is the one given, or a fresh random one.
   */
  function Cipher(mode: Bytes, key: Option<Bytes>, iv: Option<Bytes>, randomIv: Bytes): (r: Result<CipherState, Error>)
    ensures r.Ok? <==> EncryptionAlgorithm(mode).Some? && key.Some?
    ensures EncryptionAlgorithm(mode).None? ==> r == Err(UnknownEncryptionMode(mode))
    ensures EncryptionAlgorithm(mode).Some? && key.None? ==> r == Err(MissingKey)
    ensures r.Ok? ==> r.value.algorithm == EncryptionAlgorithm(mode).value && r.value.key == key.value
    ensures r.Ok? && iv.Some? ==> r.value.iv == iv.value
    ensures r.Ok? && iv.None? ==> r.value.iv == randomIv
  {
    match EncryptionAlgorithm(mode)
    case None => Err(UnknownEncryptionMode(mode))
    case Some(algorithm) =>
      if key.None? then Err(MissingKey)
      else Ok(CipherState(algorithm, key.value, if iv.Some? then iv.value else randomIv))
  }

  // ---------------------------------------------------------------------------
  // Request layout

  /** The six header lines every request starts with. */
  function Envelope(application: Bytes, rubyVersion: Bytes): seq<Header>
  {
    [Field(APPLICATION_NAME, application),
     Field(ORIGIN_SOFTWARE_NAME, A("ruby-growl")),
     Field(ORIGIN_SOFTWARE_VERSION, A(LegacyGrowl.VERSION)),
     Field(ORIGIN_PLATFORM_NAME, A("ruby")),
     Field(ORIGIN_PLATFORM_VERSION, rubyVersion),
     Field(CONNECTION, A("close"))]
  }

  /** The information line of an unencrypted request, the key-info token last when there is one. */
  function PlainInfoLine(packetType: Bytes, keyInfo: Option<Bytes>): Bytes
  {
    A("GNTP/1.0") + SPACE + packetType + SPACE + A("NONE") + (if keyInfo.Some? then SPACE + keyInfo.value else [])
  }

  /** The information line of an encrypted request: mode and hex IV, then the key-info token. */
  function EncryptedInfoLine(packetType: Bytes, mode: Bytes, iv: Bytes, keyInfo: Bytes): Bytes
  {
    A("GNTP/1.0") + SPACE + packetType + SPACE + mode + A(":") + Hex(iv) + SPACE + keyInfo
  }

  /** A resource's bytes as sent: encrypted with the request's cipher when it has one. */
  function Payload(c: Option<CipherState>, encipher: Encipher, data: Bytes): Bytes
  {
    if c.Some? then encipher(c.value.algorithm, c.value.key, c.value.iv, data) else data
  }

  /** The lines of one resource block: identifier, length, a blank line, the data, a blank line. */
  function BlockLines(id: Bytes, payload: Bytes): seq<Bytes>
  {
    [RenderHeader(Field(IDENTIFIER, id)), RenderHeader(Field(LENGTH, NatToDecimal(|payload|))), [], payload, []]
  }

  function BlockParts(resources: Entries<Bytes, Bytes>, c: Option<CipherState>, encipher: Encipher): seq<Bytes>
  {
    if |resources| == 0 then []
    else
      var last := resources[|resources| - 1];
      BlockParts(resources[..|resources| - 1], c, encipher) + BlockLines(last.0, Payload(c, encipher, last.1))
  }

  /** One resource block as bytes. */
  function ResourceBlock(id: Bytes, payload: Bytes): Bytes
  {
    RenderHeader(Field(IDENTIFIER, id)) + CRLF + RenderHeader(Field(LENGTH, NatToDecimal(|payload|))) + CRLF
    + CRLF + payload + CRLF + CRLF
  }

  /** The resource blocks of a request, in the order of the resources hash. */
  function ResourceBlocks(resources: Entries<Bytes, Bytes>, c: Option<CipherState>, encipher: Encipher): Bytes
  {
    if |resources| == 0 then []
    else
      var last := resources[|resources| - 1];
      ResourceBlocks(resources[..|resources| - 1], c, encipher) + ResourceBlock(last.0, Payload(c, encipher, last.1))
  }

  /** A request: information line, body, resource blocks, and a final empty line. */
  function Layout(info: Bytes, body: Bytes, blocks: Bytes): Bytes
  {
    info + CRLF + body + CRLF + blocks + CRLF
  }

  /**
   * The request `packet` builds: the body is every header line followed by
   * CRLF; it is sent in clear under mode `NONE` and encrypted otherwise,
   * together with every resource.
   */
  function Request(application: Bytes, rubyVersion: Bytes, encrypt: Bytes, password: Option<Bytes>, sha512: Sha512,
                   encipher: Encipher, packetType: Bytes, headers: seq<Header>, resources: Entries<Bytes, Bytes>,
                   salt: Bytes, randomIv: Bytes): Result<Bytes, Error>
  {
    var body := Terminated(RenderHeaders(Envelope(application, rubyVersion) + headers), CRLF);
    var keyHash := if password.Some? then Some(KeyHashOf(password.value, salt, sha512)) else None;
    if encrypt == A("NONE") then
      var keyInfo := if keyHash.Some? then Some(KeyInfo(keyHash.value)) else None;
      Ok(Layout(PlainInfoLine(packetType, keyInfo), body, ResourceBlocks(resources, None, encipher)))
    else
      var c :- Cipher(encrypt, if keyHash.Some? then Some(keyHash.value.key) else None, None, randomIv);
      Ok(Layout(EncryptedInfoLine(packetType, encrypt, c.iv, KeyInfo(keyHash.value)),
                encipher(c.algorithm, c.key, c.iv, body), ResourceBlocks(resources, Some(c), encipher)))
  }

  /** The info line `compact.join(' ')` builds is the plain information line. */
  lemma PlainInfoLineJoin(packetType: Bytes, keyInfo: Option<Bytes>)
    ensures Join([A("GNTP/1.0"), packetType, A("NONE")] + (if keyInfo.Some? then [keyInfo.value] else []), SPACE)
            == PlainInfoLine(packetType, keyInfo)
  {
    var g, n := A("GNTP/1.0"), A("NONE");
    var tail := if keyInfo.Some? then SPACE + keyInfo.value else [];
    var rest := [n] + (if keyInfo.Some? then [keyInfo.value] else []);
    assert Join(rest, SPACE) == n + tail by {
      if keyInfo.Some? {
        assert rest[1..] == [keyInfo.value];
      } else {
        assert rest == [n];
      }
    }
    var parts := [g, packetType] + rest;
    assert parts == [g, packetType, n] + (if keyInfo.Some? then [keyInfo.value] else []);
    assert parts[1..] == [packetType] + rest && parts[1..][1..] == rest;
    calc {
      Join(parts, SPACE);
      g + SPACE + Join(parts[1..], SPACE);
      g + SPACE + (packetType + SPACE + Join(rest, SPACE));
      g + SPACE + (packetType + SPACE + (n + tail));
      g + SPACE + packetType + SPACE + n + tail;
    }
  }

  /** One resource block's lines, each followed by CRLF, are the block. */
  lemma BlockLinesTerminated(id: Bytes, payload: Bytes)
    ensures Terminated(BlockLines(id, payload), CRLF) == ResourceBlock(id, payload)
  {
    var i, l := RenderHeader(Field(IDENTIFIER, id)), RenderHeader(Field(LENGTH, NatToDecimal(|payload|)));
    var e: Bytes := [];
    assert Terminated([e], CRLF) == CRLF;
    assert Terminated([payload, e], CRLF) == payload + CRLF + CRLF by {
      assert [payload, e][1..] == [e];
    }
    assert Terminated([e, payload, e], CRLF) == CRLF + payload + CRLF + CRLF by {
      assert [e, payload, e][1..] == [payload, e];
    }
    assert Terminated([l, e, payload, e], CRLF) == l + CRLF + CRLF + payload + CRLF + CRLF by {
      assert [l, e, payload, e][1..] == [e, payload, e];
    }
    assert BlockLines(id, payload)[1..] == [l, e, payload, e];
  }

  /** The resource lines, each followed by CRLF, are the resource blocks. */
  lemma {:induction false} BlockPartsTerminated(resources: Entries<Bytes, Bytes>, c: Option<CipherState>,
                                                encipher: Encipher)
    ensures Terminated(BlockParts(resources, c, encipher), CRLF) == ResourceBlocks(resources, c, encipher)
  {
    if |resources| > 0 {
      var last := resources[|resources| - 1];
      var init := resources[..|resources| - 1];
      var payload := Payload(c, encipher, last.1);
      BlockPartsTerminated(init, c, encipher);
      TerminatedAppend(BlockParts(init, c, encipher), BlockLines(last.0, payload), CRLF);
      BlockLinesTerminated(last.0, payload);
    }
  }

  /** Joining the request's lines with two trailing `nil`s gives its layout. */
  lemma RequestJoin(info: Bytes, body: Bytes, parts: seq<Bytes>)
    ensures Join([info, body] + parts + [[], []], CRLF) == Layout(info, body, Terminated(parts, CRLF))
  {
    assert [info, body] + parts + [[], []] == ([info, body] + parts + [[]]) + [[]];
    JoinBlankEnd([info, body] + parts + [[]], CRLF);
    TerminatedAppend([info, body] + parts, [[]], CRLF);
    TerminatedAppend([info, body], parts, CRLF);
  }

  /** The rendered body lines: `nil` last, joined, gives each line followed by CRLF. */
  lemma BodyJoin(lines: seq<Header>)
    ensures Join(RenderHeaders(lines + [Blank]), CRLF) == Terminated(RenderHeaders(lines), CRLF)
  {
    assert RenderHeaders(lines + [Blank]) == RenderHeaders(lines) + [[]];
    JoinBlankEnd(RenderHeaders(lines), CRLF);
  }

  /** With an unusable cipher the request fails with the cipher's error. */
  lemma RequestFails(application: Bytes, rubyVersion: Bytes, encrypt: Bytes, password: Option<Bytes>, sha512: Sha512,
                     encipher: Encipher, packetType: Bytes, headers: seq<Header>, resources: Entries<Bytes, Bytes>,
                     salt: Bytes, randomIv: Bytes)
    requires encrypt != A("NONE")
    requires Cipher(encrypt, if password.Some? then Some(KeyHashOf(password.value, salt, sha512).key) else None, None,
                    randomIv).Err?
    ensures Request(application, rubyVersion, encrypt, password, sha512, encipher, packetType, headers, resources,
                    salt, randomIv)
            == Err(Cipher(encrypt, if password.Some? then Some(KeyHashOf(password.value, salt, sha512).key) else None,
                          None, randomIv).error)
  {
  }

  /** The two shapes of a request that builds: in clear under `NONE`, encrypted under the cipher otherwise. */
  lemma RequestBuilt(application: Bytes, rubyVersion: Bytes, encrypt: Bytes, password: Option<Bytes>, sha512: Sha512,
                     encipher: Encipher, packetType: Bytes, headers: seq<Header>, resources: Entries<Bytes, Bytes>,
                     salt: Bytes, randomIv: Bytes)
    ensures var body := Terminated(RenderHeaders(Envelope(application, rubyVersion) + headers), CRLF);
      var keyHash := if password.Some? then Some(KeyHashOf(password.value, salt, sha512)) else None;
      var c := Cipher(encrypt, if keyHash.Some? then Some(keyHash.value.key) else None, None, randomIv);
      var r := Request(application, rubyVersion, encrypt, password, sha512, encipher, packetType, headers, resources,
                       salt, randomIv);
      && (encrypt == A("NONE") ==>
            r == Ok(Layout(PlainInfoLine(packetType, if keyHash.Some? then Some(KeyInfo(keyHash.value)) else None),
                           body, ResourceBlocks(resources, None, encipher))))
      && (encrypt != A("NONE") && c.Ok? ==>
            r == Ok(Layout(EncryptedInfoLine(packetType, encrypt, c.value.iv, KeyInfo(keyHash.value)),
                           encipher(c.value.algorithm, c.value.key, c.value.iv, body),
                           ResourceBlocks(resources, Some(c.value), encipher))))
  {
  }

  // ---------------------------------------------------------------------------
  // Reading a request in clear back line by line

  /** No carriage return: the line survives a split at CRLF whole. */
  predicate NoCr(s: Bytes)
  {
    forall i :: 0 <= i < |s| ==> s[i] != 13
  }

  /** Every line is free of carriage returns. */
  predicate LinesNoCr(lines: seq<Bytes>)
  {
    forall k :: 0 <= k < |lines| ==> NoCr(lines[k])
  }

  /** Printable ASCII: every protocol literal of a request is of this kind. */
  predicate Printable(s: string)
  {
    forall i :: 0 <= i < |s| ==> 32 <= s[i] as int < 127
  }

  lemma LiteralNoCr(s: string)
    requires Printable(s)
    ensures NoCr(A(s))
  {
  }

  lemma {:induction false} HexNoCr(b: Bytes)
    ensures NoCr(Hex(b))
  {
    if b != [] {
      HexNoCr(b[1..]);
    }
  }

  lemma FieldNoCr(name: string, value: Bytes)
    requires Printable(name)
    requires NoCr(value)
    ensures NoCr(RenderHeader(Field(name, value)))
  {
    LiteralNoCr(name);
    LiteralNoCr(": ");
  }

  lemma EnvelopeNamesPrintable()
    ensures Printable(APPLICATION_NAME) && Printable(ORIGIN_SOFTWARE_NAME) && Printable(ORIGIN_SOFTWARE_VERSION)
    ensures Printable(ORIGIN_PLATFORM_NAME) && Printable(ORIGIN_PLATFORM_VERSION) && Printable(CONNECTION)
  {
    OriginSoftwarePrintable();
    OriginPlatformPrintable();
  }

  lemma OriginSoftwarePrintable()
    ensures Printable(ORIGIN_SOFTWARE_NAME) && Printable(ORIGIN_SOFTWARE_VERSION)
  {
  }

  lemma OriginPlatformPrintable()
    ensures Printable(ORIGIN_PLATFORM_NAME) && Printable(ORIGIN_PLATFORM_VERSION)
  {
  }

  lemma EnvelopeValuesPrintable()
    ensures Printable("ruby-growl") && Printable(LegacyGrowl.VERSION) && Printable("ruby") && Printable("close")
  {
  }

  /** The six envelope lines hold no carriage return when the two given values hold none. */
  lemma {:induction false} EnvelopeNoCr(application: Bytes, rubyVersion: Bytes)
    requires NoCr(application) && NoCr(rubyVersion)
    ensures LinesNoCr(RenderHeaders(Envelope(application, rubyVersion)))
  {
    EnvelopeNamesPrintable();
    EnvelopeValuesPrintable();
    LiteralNoCr("ruby-growl");
    LiteralNoCr(LegacyGrowl.VERSION);
    LiteralNoCr("ruby");
    LiteralNoCr("close");
    FieldNoCr(APPLICATION_NAME, application);
    FieldNoCr(ORIGIN_SOFTWARE_NAME, A("ruby-growl"));
    FieldNoCr(ORIGIN_SOFTWARE_VERSION, A(LegacyGrowl.VERSION));
    FieldNoCr(ORIGIN_PLATFORM_NAME, A("ruby"));
    FieldNoCr(ORIGIN_PLATFORM_VERSION, rubyVersion);
    FieldNoCr(CONNECTION, A("close"));
  }

  /** The information line of a request in clear holds no carriage return when its packet type holds none. */
  lemma PlainInfoLineNoCr(packetType: Bytes, password: Option<Bytes>, salt: Bytes, sha512: Sha512)
    requires NoCr(packetType)
    ensures NoCr(PlainInfoLine(packetType, if password.Some? then Some(KeyInfo(KeyHashOf(password.value, salt, sha512)))
                                           else None))
  {
    LiteralNoCr("GNTP/1.0");
    LiteralNoCr("NONE");
    if password.Some? {
      var k := KeyHashOf(password.value, salt, sha512);
      LiteralNoCr("SHA512:");
      LiteralNoCr(".");
      HexNoCr(sha512(k.key));
      HexNoCr(salt);
    }
  }

  /** The lines of the resource blocks hold no carriage return when the identifiers and the data hold none. */
  lemma {:induction false} BlockPartsNoCr(resources: Entries<Bytes, Bytes>, encipher: Encipher)
    requires forall k :: 0 <= k < |resources| ==> NoCr(resources[k].0) && NoCr(resources[k].1)
    ensures LinesNoCr(BlockParts(resources, None, encipher))
  {
    if |resources| > 0 {
      var init := resources[..|resources| - 1];
      var last := resources[|resources| - 1];
      assert forall k :: 0 <= k < |init| ==> init[k] == resources[k];
      BlockPartsNoCr(init, encipher);
      FieldNoCr(IDENTIFIER, last.0);
      FieldNoCr(LENGTH, NatToDecimal(|last.1|));
      var lines := BlockLines(last.0, last.1);
      assert LinesNoCr(lines) by {
        assert lines == [lines[0], lines[1], [], last.1, []];
      }
    }
  }

  /** Lines without carriage returns, joined at CRLF, split back into those lines. */
  lemma SplitOnCrlfOfJoin(lines: seq<Bytes>)
    requires |lines| > 0 && LinesNoCr(lines)
    ensures SplitOn(Join(lines, CRLF), CRLF) == lines
  {
    assert forall k, i :: 0 <= k < |lines| && 0 <= i < |lines[k]| ==> lines[k][i] != CRLF[0] by {
      forall k, i | 0 <= k < |lines| && 0 <= i < |lines[k]| ensures lines[k][i] != CRLF[0] {
        assert NoCr(lines[k]);
      }
    }
    SplitOnOfJoin(lines, CRLF);
  }

  /** The lines of a request in clear, as a receiver splitting it at CRLF sees them. */
  function ClearLines(application: Bytes, rubyVersion: Bytes, password: Option<Bytes>, sha512: Sha512,
                      encipher: Encipher, packetType: Bytes, headers: seq<Header>, resources: Entries<Bytes, Bytes>,
                      salt: Bytes): seq<Bytes>
  {
    var keyInfo := if password.Some? then Some(KeyInfo(KeyHashOf(password.value, salt, sha512))) else None;
    [PlainInfoLine(packetType, keyInfo)] + RenderHeaders(Envelope(application, rubyVersion) + headers) + [[]]
    + BlockParts(resources, None, encipher) + [[], []]
  }

  /** A request in clear is its lines joined with CRLF. */
  lemma ClearRequestJoin(application: Bytes, rubyVersion: Bytes, password: Option<Bytes>, sha512: Sha512,
                         encipher: Encipher, packetType: Bytes, headers: seq<Header>, resources: Entries<Bytes, Bytes>,
                         salt: Bytes, randomIv: Bytes)
    ensures Request(application, rubyVersion, A("NONE"), password, sha512, encipher, packetType, headers, resources,
                    salt, randomIv)
            == Ok(Join(ClearLines(application, rubyVersion, password, sha512, encipher, packetType, headers, resources,
                                  salt), CRLF))
  {
    var keyInfo := if password.Some? then Some(KeyInfo(KeyHashOf(password.value, salt, sha512))) else None;
    RequestBuilt(application, rubyVersion, A("NONE"), password, sha512, encipher, packetType, headers, resources,
                 salt, randomIv);
    BlockPartsTerminated(resources, None, encipher);
    LayoutJoin(PlainInfoLine(packetType, keyInfo), RenderHeaders(Envelope(application, rubyVersion) + headers),
               BlockParts(resources, None, encipher));
  }

  /** The layout of a request is its information line, body lines, a blank line and block lines, joined with CRLF. */
  lemma {:induction false} LayoutJoin(info: Bytes, lines: seq<Bytes>, parts: seq<Bytes>)
    ensures Join([info] + lines + [[]] + parts + [[], []], CRLF)
            == Layout(info, Terminated(lines, CRLF), Terminated(parts, CRLF))
  {
    var head := [info] + lines + [[]];
    var all := head + parts + [[]];
    assert all + [[]] == [info] + lines + [[]] + parts + [[], []];
    JoinBlankEnd(all, CRLF);
    TerminatedAppend(head + parts, [[]], CRLF);
    TerminatedAppend(head, parts, CRLF);
    TerminatedAppend([info] + lines, [[]], CRLF);
    TerminatedAppend([info], lines, CRLF);
    assert Terminated([[]], CRLF) == CRLF;
    assert Terminated([info], CRLF) == info + CRLF;
  }


  /** No line of a request in clear holds a carriage return when none of the given texts does. */
  lemma ClearLinesNoCr(application: Bytes, rubyVersion: Bytes, password: Option<Bytes>, sha512: Sha512,
                       encipher: Encipher, packetType: Bytes, headers: seq<Header>, resources: Entries<Bytes, Bytes>,
                       salt: Bytes)
    requires NoCr(application) && NoCr(rubyVersion) && NoCr(packetType)
    requires forall k :: 0 <= k < |headers| ==> NoCr(RenderHeader(headers[k]))
    requires forall k :: 0 <= k < |resources| ==> NoCr(resources[k].0) && NoCr(resources[k].1)
    ensures LinesNoCr(ClearLines(application, rubyVersion, password, sha512, encipher, packetType, headers, resources,
                                 salt))
  {
    var keyInfo := if password.Some? then Some(KeyInfo(KeyHashOf(password.value, salt, sha512))) else None;
    var info := PlainInfoLine(packetType, keyInfo);
    var envelope := RenderHeaders(Envelope(application, rubyVersion));
    var parts := BlockParts(resources, None, encipher);
    PlainInfoLineNoCr(packetType, password, salt, sha512);
    EnvelopeNoCr(application, rubyVersion);
    BlockPartsNoCr(resources, encipher);
    assert RenderHeaders(Envelope(application, rubyVersion) + headers) == envelope + RenderHeaders(headers);
    var e: Bytes := [];
    assert NoCr(e);
    assert ClearLines(application, rubyVersion, password, sha512, encipher, packetType, headers, resources, salt)
           == [info] + envelope + RenderHeaders(headers) + [e] + parts + [e, e];
  }

  /**
   * A request sent in clear reads back line by line: split at CRLF it gives
   * the information line, the header lines, a blank line, the lines of each
   * resource block in the order of the resources hash, and two blank lines,
   * provided none of the given texts holds a carriage return.
   */
  lemma {:induction false} ClearRequestLines(application: Bytes, rubyVersion: Bytes, password: Option<Bytes>,
                                             sha512: Sha512, encipher: Encipher, packetType: Bytes,
                                             headers: seq<Header>, resources: Entries<Bytes, Bytes>, salt: Bytes,
                                             randomIv: Bytes)
    requires NoCr(application) && NoCr(rubyVersion) && NoCr(packetType)
    requires forall k :: 0 <= k < |headers| ==> NoCr(RenderHeader(headers[k]))
    requires forall k :: 0 <= k < |resources| ==> NoCr(resources[k].0) && NoCr(resources[k].1)
    ensures var r := Request(application, rubyVersion, A("NONE"), password, sha512, encipher, packetType, headers,
                             resources, salt, randomIv);
      var keyInfo := if password.Some? then Some(KeyInfo(KeyHashOf(password.value, salt, sha512))) else None;
      r.Ok? && SplitOn(r.value, CRLF) == [PlainInfoLine(packetType, keyInfo)]
                                         + RenderHeaders(Envelope(application, rubyVersion) + headers) + [[]]
                                         + BlockParts(resources, None, encipher) + [[], []]
  {
    ClearRequestJoin(application, rubyVersion, password, sha512, encipher, packetType, headers, resources, salt,
                     randomIv);
    ClearLinesNoCr(application, rubyVersion, password, sha512, encipher, packetType, headers, resources, salt);
    SplitOnCrlfOfJoin(ClearLines(application, rubyVersion, password, sha512, encipher, packetType, headers,
                                 resources, salt));
  }


  /** Every header of `a + b` is one of `a` or one of `b`. */
  lemma HasHeaderAppend(a: seq<Header>, b: seq<Header>, name: string)
    ensures HasHeader(a + b, name) <==> HasHeader(a, name) || HasHeader(b, name)
  {
    if HasHeader(a + b, name) {
      var h :| h in a + b && h.Field? && h.name == name;
      assert h in a || h in b;
    }
    if HasHeader(a, name) {
      var h :| h in a && h.Field? && h.name == name;
      assert h in a + b;
    }
    if HasHeader(b, name) {
      var h :| h in b && h.Field? && h.name == name;
      assert h in a + b;
    }
  }

  // ---------------------------------------------------------------------------
  // NOTIFY

  /** The icon registered for a notification name; an unknown name has none. */
  function IconOf(notifications: Entries<Bytes, Registration>, name: Bytes): Option<Icon>
  {
    var r := Get(notifications, name);
    if r.Some? then r.value.icon else None
  }

  predicate IsDataIcon(icon: Option<Icon>)
  {
    icon.Some? && icon.value.DataIcon?
  }

  /** The value referring to the resource `id`: `x-growl-resource://<id>`. */
  function ResourceReference(id: Bytes): Bytes
  {
    A("x-growl-resource://") + id
  }

  /** A resource reference is the text of the `x-growl-resource` URI of its id, and parses back to that id. */
  lemma ResourceReferenceIsUri(id: Bytes, hostOk: XGrowlResource.HostPattern)
    requires XGrowlResource.IsUniqueId(id)
    ensures ResourceReference(id) == XGrowlResource.Render(XGrowlResource.SCHEME, Some(id))
    ensures XGrowlResource.Components(ResourceReference(id)) == Some((XGrowlResource.SCHEME, id))
    ensures XGrowlResource.InitialUniqueId(Some(id), true, hostOk) == Ok(id) <==> hostOk(id)
  {
    XGrowlResource.RenderParses(id, hostOk);
  }

  /** The icon header: a URI as it is, image bytes as a reference to the resource `id`. */
  function IconHeaders(headerName: string, icon: Option<Icon>, id: Bytes): seq<Header>
  {
    match icon
    case None => []
    case Some(UriIcon(uri)) => [Field(headerName, uri)]
    case Some(DataIcon(_)) => [Field(headerName, ResourceReference(id))]
  }

  /** The resources hash of a NOTIFY request: the image of a bytes icon, under `id`. */
  function IconResources(icon: Option<Icon>, id: Bytes): Entries<Bytes, Bytes>
  {
    if IsDataIcon(icon) then [(id, icon.value.data)] else []
  }

  /** The callback headers: context and context type for any callback, the target for a URL. */
  function CallbackHeaders(callback: Callback): seq<Header>
  {
    match callback
    case NoCallback => []
    case BlockCallback => [Field(NOTIFICATION_CALLBACK_CONTEXT, A("context")),
                           Field(NOTIFICATION_CALLBACK_CONTEXT_TYPE, A("type"))]
    case UrlCallback(url) => [Field(NOTIFICATION_CALLBACK_CONTEXT, A("context")),
                              Field(NOTIFICATION_CALLBACK_CONTEXT_TYPE, A("type")),
                              Field(NOTIFICATION_CALLBACK_TARGET, url)]
  }

  /** The headers of a NOTIFY request, in the order the server receives them. */
  function NotifyHeaders(id: Bytes, name: Bytes, title: Bytes, text: Option<Bytes>, priority: int, sticky: bool,
                         coalesceId: Option<Bytes>, icon: Option<Icon>, resourceId: Bytes, callback: Callback)
    : seq<Header>
  {
    [Field(NOTIFICATION_ID, id)]
    + (if coalesceId.Some? then [Field(NOTIFICATION_COALESCING_ID, coalesceId.value)] else [])
    + [Field(NOTIFICATION_NAME, name), Field(NOTIFICATION_TITLE, title)]
    + (if text.Some? then [Field(NOTIFICATION_TEXT, text.value)] else [])
    + (if priority != 0 then [Field(NOTIFICATION_PRIORITY, IntToDecimal(priority))] else [])
    + (if sticky then [Field(NOTIFICATION_STICKY, A("True"))] else [])
    + IconHeaders(NOTIFICATION_ICON, icon, resourceId)
    + CallbackHeaders(callback)
  }

  /** The callback `notify` asks for: the URL when one is given, else `true` exactly when a block is given. */
  function CallbackOf(callbackUrl: Option<Bytes>, block: bool): (c: Callback)
    ensures c.UrlCallback? <==> callbackUrl.Some?
    ensures c.UrlCallback? ==> c.url == callbackUrl.value
    ensures c.BlockCallback? <==> callbackUrl.None? && block
  {
    if callbackUrl.Some? then UrlCallback(callbackUrl.value) else if block then BlockCallback else NoCallback
  }

  /** A header other than the id, name and title is one of the optional groups. */
  lemma NotifyHeadersSplit(id: Bytes, name: Bytes, title: Bytes, text: Option<Bytes>, priority: int, sticky: bool,
                           coalesceId: Option<Bytes>, icon: Option<Icon>, resourceId: Bytes, callback: Callback,
                           n: string)
    requires n != NOTIFICATION_ID && n != NOTIFICATION_NAME && n != NOTIFICATION_TITLE
    ensures HasHeader(NotifyHeaders(id, name, title, text, priority, sticky, coalesceId, icon, resourceId, callback), n)
            <==> (coalesceId.Some? && n == NOTIFICATION_COALESCING_ID) || (text.Some? && n == NOTIFICATION_TEXT)
                 || (priority != 0 && n == NOTIFICATION_PRIORITY) || (sticky && n == NOTIFICATION_STICKY)
                 || (icon.Some? && n == NOTIFICATION_ICON)
                 || (!callback.NoCallback? && (n == NOTIFICATION_CALLBACK_CONTEXT || n == NOTIFICATION_CALLBACK_CONTEXT_TYPE))
                 || (callback.UrlCallback? && n == NOTIFICATION_CALLBACK_TARGET)
  {
    var h0 := [Field(NOTIFICATION_ID, id)];
    var coalesce := if coalesceId.Some? then [Field(NOTIFICATION_COALESCING_ID, coalesceId.value)] else [];
    var h1 := [Field(NOTIFICATION_NAME, name), Field(NOTIFICATION_TITLE, title)];
    var textLine := if text.Some? then [Field(NOTIFICATION_TEXT, text.value)] else [];
    var prio := if priority != 0 then [Field(NOTIFICATION_PRIORITY, IntToDecimal(priority))] else [];
    var stick := if sticky then [Field(NOTIFICATION_STICKY, A("True"))] else [];
    var iconLines := IconHeaders(NOTIFICATION_ICON, icon, resourceId);
    var cb := CallbackHeaders(callback);
    HasHeaderInEight(h0, coalesce, h1, textLine, prio, stick, iconLines, cb, n);
    assert !HasHeader(h0, n) && !HasHeader(h1, n);
    assert HasHeader(coalesce, n) <==> coalesceId.Some? && n == NOTIFICATION_COALESCING_ID;
    assert HasHeader(textLine, n) <==> text.Some? && n == NOTIFICATION_TEXT;
    assert HasHeader(prio, n) <==> priority != 0 && n == NOTIFICATION_PRIORITY;
    assert HasHeader(stick, n) <==> sticky && n == NOTIFICATION_STICKY;
    assert HasHeader(iconLines, n) <==> icon.Some? && n == NOTIFICATION_ICON;
    CallbackHeadersNames(callback, n);
  }

  /** A header is in eight groups put together exactly when it is in one of them. */
  lemma HasHeaderInEight(a: seq<Header>, b: seq<Header>, c: seq<Header>, d: seq<Header>, e: seq<Header>,
                         f: seq<Header>, g: seq<Header>, h: seq<Header>, n: string)
    ensures HasHeader(a + b + c + d + e + f + g + h, n)
            <==> HasHeader(a, n) || HasHeader(b, n) || HasHeader(c, n) || HasHeader(d, n) || HasHeader(e, n)
                 || HasHeader(f, n) || HasHeader(g, n) || HasHeader(h, n)
  {
    HasHeaderAppend(a, b, n);
    HasHeaderAppend(a + b, c, n);
    HasHeaderAppend(a + b + c, d, n);
    HasHeaderAppend(a + b + c + d, e, n);
    HasHeaderAppend(a + b + c + d + e, f, n);
    HasHeaderAppend(a + b + c + d + e + f, g, n);
    HasHeaderAppend(a + b + c + d + e + f + g, h, n);
  }

  lemma CallbackHeadersNames(callback: Callback, n: string)
    ensures HasHeader(CallbackHeaders(callback), n)
            <==> (!callback.NoCallback? && (n == NOTIFICATION_CALLBACK_CONTEXT || n == NOTIFICATION_CALLBACK_CONTEXT_TYPE))
                 || (callback.UrlCallback? && n == NOTIFICATION_CALLBACK_TARGET)
  {
    var cb := CallbackHeaders(callback);
    if !callback.NoCallback? {
      assert cb[0] == Field(NOTIFICATION_CALLBACK_CONTEXT, A("context"));
      assert cb[1] == Field(NOTIFICATION_CALLBACK_CONTEXT_TYPE, A("type"));
    }
    if callback.UrlCallback? {
      assert cb[2] == Field(NOTIFICATION_CALLBACK_TARGET, callback.url);
    }
  }

  /** Priority, stickiness, optional text and coalescing id, icon and callback each show as their own header exactly when set. */
  lemma NotifyHeadersPresence(id: Bytes, name: Bytes, title: Bytes, text: Option<Bytes>, priority: int, sticky: bool,
                              coalesceId: Option<Bytes>, icon: Option<Icon>, resourceId: Bytes, callback: Callback)
    ensures var hs := NotifyHeaders(id, name, title, text, priority, sticky, coalesceId, icon, resourceId, callback);
      && hs[0] == Field(NOTIFICATION_ID, id)
      && (HasHeader(hs, NOTIFICATION_PRIORITY) <==> priority != 0)
      && (HasHeader(hs, NOTIFICATION_STICKY) <==> sticky)
      && (HasHeader(hs, NOTIFICATION_TEXT) <==> text.Some?)
      && (HasHeader(hs, NOTIFICATION_COALESCING_ID) <==> coalesceId.Some?)
      && (HasHeader(hs, NOTIFICATION_ICON) <==> icon.Some?)
      && (HasHeader(hs, NOTIFICATION_CALLBACK_CONTEXT) <==> !callback.NoCallback?)
      && (HasHeader(hs, NOTIFICATION_CALLBACK_CONTEXT_TYPE) <==> !callback.NoCallback?)
      && (HasHeader(hs, NOTIFICATION_CALLBACK_TARGET) <==> callback.UrlCallback?)
  {
    NotifyHeadersSplit(id, name, title, text, priority, sticky, coalesceId, icon, resourceId, callback,
                       NOTIFICATION_PRIORITY);
    NotifyHeadersSplit(id, name, title, text, priority, sticky, coalesceId, icon, resourceId, callback,
                       NOTIFICATION_STICKY);
    NotifyHeadersSplit(id, name, title, text, priority, sticky, coalesceId, icon, resourceId, callback,
                       NOTIFICATION_TEXT);
    NotifyHeadersSplit(id, name, title, text, priority, sticky, coalesceId, icon, resourceId, callback,
                       NOTIFICATION_COALESCING_ID);
    NotifyHeadersSplit(id, name, title, text, priority, sticky, coalesceId, icon, resourceId, callback,
                       NOTIFICATION_ICON);
    NotifyHeadersSplit(id, name, title, text, priority, sticky, coalesceId, icon, resourceId, callback,
                       NOTIFICATION_CALLBACK_CONTEXT);
    NotifyHeadersSplit(id, name, title, text, priority, sticky, coalesceId, icon, resourceId, callback,
                       NOTIFICATION_CALLBACK_CONTEXT_TYPE);
    NotifyHeadersSplit(id, name, title, text, priority, sticky, coalesceId, icon, resourceId, callback,
                       NOTIFICATION_CALLBACK_TARGET);
  }

  /** The priority header, read back with `to_i`, is the priority. */
  lemma PriorityHeaderReadsBack(priority: int)
    requires priority != 0
    ensures ToI(Field(NOTIFICATION_PRIORITY, IntToDecimal(priority)).value) == priority
  {
    ToIOfDecimal(priority);
  }

  // ---------------------------------------------------------------------------
  // REGISTER

  /** Headers, resources and generator position while `packet_register` runs. */
  datatype Registering = Registering(headers: seq<Header>, resources: Entries<Bytes, Bytes>, next: nat)

  /** The application icon: a URI header, or a reference header and a resource under the next identifier. */
  function AppIconStep(icon: Option<Icon>, source: nat -> Bytes, start: nat): Registering
  {
    match icon
    case None => Registering([], [], start)
    case Some(UriIcon(uri)) => Registering([Field(APPLICATION_ICON, uri)], [], start)
    case Some(DataIcon(data)) =>
      Registering([Field(APPLICATION_ICON, ResourceReference(source(start)))], Put([], source(start), data), start + 1)
  }

  /** The header group of one registered notification, ending with its blank line. */
  function NotificationGroup(name: Bytes, reg: Registration, id: Bytes): seq<Header>
  {
    [Field(NOTIFICATION_NAME, name)]
    + (if reg.displayName.Some? then [Field(NOTIFICATION_DISPLAY_NAME, reg.displayName.value)] else [])
    + (if reg.enabled then [Field(NOTIFICATION_ENABLED, A("true"))] else [])
    + IconHeaders(NOTIFICATION_ICON, reg.icon, id)
    + [Blank]
  }

  /** Only an image icon refers to an identifier. */
  lemma GroupWithoutResource(name: Bytes, reg: Registration, id: Bytes, id': Bytes)
    requires !IsDataIcon(reg.icon)
    ensures NotificationGroup(name, reg, id) == NotificationGroup(name, reg, id')
  {
  }

  /** One notification of the registry added to a REGISTER request under construction. */
  function RegisterStep(s: Registering, name: Bytes, reg: Registration, source: nat -> Bytes): Registering
  {
    var id := source(s.next);
    Registering(s.headers + NotificationGroup(name, reg, id),
                if IsDataIcon(reg.icon) then Put(s.resources, id, reg.icon.value.data) else s.resources,
                if IsDataIcon(reg.icon) then s.next + 1 else s.next)
  }

  /** The registry's notifications added in order. */
  function RegisterFold(s: Registering, entries: Entries<Bytes, Registration>, source: nat -> Bytes): (r: Registering)
    ensures |r.headers| >= |s.headers| + |entries| && r.headers[..|s.headers|] == s.headers
  {
    if |entries| == 0 then s
    else
      var last := entries[|entries| - 1];
      RegisterStep(RegisterFold(s, entries[..|entries| - 1], source), last.0, last.1, source)
  }

  /** The headers before the notifications: the application icon, the count, and a blank line. */
  function RegisterStart(icon: Option<Icon>, count: nat, source: nat -> Bytes, start: nat): Registering
  {
    var a := AppIconStep(icon, source, start);
    Registering(a.headers + [Field(NOTIFICATIONS_COUNT, NatToDecimal(count)), Blank], a.resources, a.next)
  }

  /** What `packet_register` sends: all headers except the last blank line, and the resources. */
  function Registered(icon: Option<Icon>, notifications: Entries<Bytes, Registration>, source: nat -> Bytes,
                      start: nat): Registering
  {
    var f := RegisterFold(RegisterStart(icon, |notifications|, source, start), notifications, source);
    Registering(f.headers[..|f.headers| - 1], f.resources, f.next)
  }

  /** The number of notifications, among `entries`, whose icon is sent as a resource. */
  function DataIcons(entries: Entries<Bytes, Registration>): nat
  {
    if |entries| == 0 then 0
    else DataIcons(entries[..|entries| - 1]) + (if IsDataIcon(entries[|entries| - 1].1.icon) then 1 else 0)
  }

  function Flatten(groups: seq<seq<Header>>): seq<Header>
  {
    if |groups| == 0 then [] else Flatten(groups[..|groups| - 1]) + groups[|groups| - 1]
  }

  /** The group of the i-th notification, whose icon resource takes the next identifier after the earlier ones' resources. */
  function GroupAt(entries: Entries<Bytes, Registration>, i: nat, source: nat -> Bytes, next: nat): seq<Header>
    requires i < |entries|
  {
    NotificationGroup(entries[i].0, entries[i].1, source(next + DataIcons(entries[..i])))
  }

  function Groups(entries: Entries<Bytes, Registration>, source: nat -> Bytes, next: nat): seq<seq<Header>>
  {
    seq(|entries|, i requires 0 <= i < |entries| => GroupAt(entries, i, source, next))
  }

  /** Adding the notifications takes one identifier per resource icon. */
  lemma {:induction false} RegisterFoldNext(s: Registering, entries: Entries<Bytes, Registration>, source: nat -> Bytes)
    ensures RegisterFold(s, entries, source).next == s.next + DataIcons(entries)
  {
    if |entries| > 0 {
      RegisterFoldNext(s, entries[..|entries| - 1], source);
    }
  }

  /** The groups of all but the last notification are the groups of the shorter registry. */
  lemma GroupsInit(entries: Entries<Bytes, Registration>, source: nat -> Bytes, next: nat)
    requires |entries| > 0
    ensures Groups(entries, source, next)[..|entries| - 1] == Groups(entries[..|entries| - 1], source, next)
  {
    var n := |entries|;
    var init := entries[..n - 1];
    forall i | 0 <= i < n - 1 ensures Groups(entries, source, next)[i] == Groups(init, source, next)[i] {
      assert init[..i] == entries[..i];
    }
  }

  /** Adding the notifications appends their groups in registry order. */
  lemma {:induction false} RegisterFoldShape(s: Registering, entries: Entries<Bytes, Registration>, source: nat -> Bytes)
    ensures RegisterFold(s, entries, source).headers == s.headers + Flatten(Groups(entries, source, s.next))
  {
    if |entries| > 0 {
      var n := |entries|;
      var init := entries[..n - 1];
      var last := entries[n - 1];
      var p := RegisterFold(s, init, source);
      var gs := Groups(entries, source, s.next);
      assert RegisterFold(s, entries, source).headers == p.headers + gs[n - 1] by {
        RegisterFoldNext(s, init, source);
        assert gs[n - 1] == NotificationGroup(last.0, last.1, source(p.next));
      }
      assert p.headers == s.headers + Flatten(gs[..n - 1]) by {
        RegisterFoldShape(s, init, source);
        GroupsInit(entries, source, s.next);
      }
      assert Flatten(gs) == Flatten(gs[..n - 1]) + gs[n - 1];
    }
  }

  /** A notification's group names it first, shows its display name and `Enabled` line exactly when set, and ends blank. */
  lemma NotificationGroupContents(name: Bytes, reg: Registration, id: Bytes)
    ensures var g := NotificationGroup(name, reg, id);
      && g[0] == Field(NOTIFICATION_NAME, name) && g[|g| - 1] == Blank
      && (HasHeader(g, NOTIFICATION_ENABLED) <==> reg.enabled)
      && (reg.enabled ==> Field(NOTIFICATION_ENABLED, A("true")) in g)
      && (HasHeader(g, NOTIFICATION_DISPLAY_NAME) <==> reg.displayName.Some?)
      && (HasHeader(g, NOTIFICATION_ICON) <==> reg.icon.Some?)
      && (reg.icon.Some? && reg.icon.value.UriIcon? ==> Field(NOTIFICATION_ICON, reg.icon.value.uri) in g)
      && (IsDataIcon(reg.icon) ==> Field(NOTIFICATION_ICON, ResourceReference(id)) in g)
  {
    var h0 := [Field(NOTIFICATION_NAME, name)];
    var d := if reg.displayName.Some? then [Field(NOTIFICATION_DISPLAY_NAME, reg.displayName.value)] else [];
    var e := if reg.enabled then [Field(NOTIFICATION_ENABLED, A("true"))] else [];
    var ic := IconHeaders(NOTIFICATION_ICON, reg.icon, id);
    forall n | n in [NOTIFICATION_ENABLED, NOTIFICATION_DISPLAY_NAME, NOTIFICATION_ICON]
      ensures HasHeader(NotificationGroup(name, reg, id), n) <==> HasHeader(d, n) || HasHeader(e, n) || HasHeader(ic, n)
    {
      HasHeaderAppend(h0, d, n);
      HasHeaderAppend(h0 + d, e, n);
      HasHeaderAppend(h0 + d + e, ic, n);
      HasHeaderAppend(h0 + d + e + ic, [Blank], n);
    }
  }

  /** Earlier resources have smaller generator positions. */
  lemma {:induction false} DataIconsGrow(entries: Entries<Bytes, Registration>, i: nat, j: nat)
    requires i < j <= |entries| && IsDataIcon(entries[i].1.icon)
    ensures DataIcons(entries[..j]) >= DataIcons(entries[..i]) + 1
    decreases j
  {
    assert entries[..j][..j - 1] == entries[..j - 1];
    if j > i + 1 {
      DataIconsGrow(entries, i, j - 1);
    }
  }

  /** Distinct positions of the generator give distinct identifiers (true of real UUIDs, not of a constant stub). */
  ghost predicate Injective(source: nat -> Bytes)
  {
    forall a: nat, b: nat :: source(a) == source(b) ==> a == b
  }

  /**
   * With distinct identifiers, the resource named in a notification's icon
   * reference holds that notification's image.
   */
  lemma {:induction false} RegisterFoldResources(s: Registering, entries: Entries<Bytes, Registration>,
                                                 source: nat -> Bytes, i: nat)
    requires Injective(source)
    requires i < |entries| && IsDataIcon(entries[i].1.icon)
    ensures Get(RegisterFold(s, entries, source).resources, source(s.next + DataIcons(entries[..i])))
            == Some(entries[i].1.icon.value.data)
  {
    var n := |entries|;
    var init := entries[..n - 1];
    var p := RegisterFold(s, init, source);
    RegisterFoldNext(s, init, source);
    var key := source(s.next + DataIcons(entries[..i]));
    var last := entries[n - 1];
    if i == n - 1 {
      assert key == source(p.next);
      GetPut(p.resources, source(p.next), last.1.icon.value.data, key);
    } else {
      assert Get(p.resources, key) == Some(entries[i].1.icon.value.data) by {
        assert init[..i] == entries[..i];
        RegisterFoldResources(s, init, source, i);
      }
      if IsDataIcon(last.1.icon) {
        assert key != source(p.next) by {
          DataIconsGrow(entries, i, n - 1);
        }
        GetPut(p.resources, source(p.next), last.1.icon.value.data, key);
      }
    }
  }

  /** Positions before the notifications' are never overwritten by them. */
  lemma {:induction false} RegisterFoldKeeps(s: Registering, entries: Entries<Bytes, Registration>,
                                             source: nat -> Bytes, k: nat)
    requires Injective(source) && k < s.next
    ensures Get(RegisterFold(s, entries, source).resources, source(k)) == Get(s.resources, source(k))
  {
    if |entries| > 0 {
      var init := entries[..|entries| - 1];
      var last := entries[|entries| - 1];
      var p := RegisterFold(s, init, source);
      RegisterFoldKeeps(s, init, source, k);
      RegisterFoldNext(s, init, source);
      if IsDataIcon(last.1.icon) {
        GetPut(p.resources, source(p.next), last.1.icon.value.data, source(k));
      }
    }
  }

  /**
   * A REGISTER request starts with the application icon header, if there is
   * an icon, and then the count of notifications.
   */
  lemma RegisteredPrefix(icon: Option<Icon>, notifications: Entries<Bytes, Registration>, source: nat -> Bytes,
                         start: nat)
    ensures var g := Registered(icon, notifications, source, start);
      var appLines := AppIconStep(icon, source, start).headers;
      && |appLines| == (if icon.Some? then 1 else 0)
      && |g.headers| > |appLines|
      && g.headers[..|appLines|] == appLines
      && g.headers[|appLines|] == Field(NOTIFICATIONS_COUNT, NatToDecimal(|notifications|))
  {
    var s := RegisterStart(icon, |notifications|, source, start);
    var f := RegisterFold(s, notifications, source);
    var appLines := AppIconStep(icon, source, start).headers;
    assert f.headers[..|s.headers|] == s.headers;
    assert f.headers[..|f.headers| - 1][..|appLines|] == s.headers[..|appLines|];
    assert f.headers[|appLines|] == s.headers[|appLines|];
  }

  /**
   * After the count, each notification's group follows in registry order,
   * the last blank line dropped; one identifier is taken per resource.
   */
  lemma {:induction false} RegisteredGroups(icon: Option<Icon>, notifications: Entries<Bytes, Registration>, source: nat -> Bytes,
                         start: nat)
    ensures var g := Registered(icon, notifications, source, start);
      var a := AppIconStep(icon, source, start);
      && g.headers + [Blank] == a.headers + [Field(NOTIFICATIONS_COUNT, NatToDecimal(|notifications|)), Blank]
                                + Flatten(Groups(notifications, source, a.next))
      && g.next == start + (if IsDataIcon(icon) then 1 else 0) + DataIcons(notifications)
  {
    var s := RegisterStart(icon, |notifications|, source, start);
    var f := RegisterFold(s, notifications, source);
    assert Registered(icon, notifications, source, start).headers + [Blank] == f.headers by {
      LastIsBlank(s, notifications, source);
      PopBlank(f.headers);
    }
    RegisterFoldShape(s, notifications, source);
    RegisterFoldNext(s, notifications, source);
  }

  /** `headers.pop` of headers ending blank, with the blank put back, gives the headers again. */
  lemma PopBlank(h: seq<Header>)
    requires |h| > 0 && h[|h| - 1] == Blank
    ensures h[..|h| - 1] + [Blank] == h
  {
  }

  /** The headers under construction always end with a blank line. */
  lemma {:induction false} LastIsBlank(s: Registering, entries: Entries<Bytes, Registration>, source: nat -> Bytes)
    requires |s.headers| > 0 && s.headers[|s.headers| - 1] == Blank
    ensures var h := RegisterFold(s, entries, source).headers; h[|h| - 1] == Blank
  {
    if |entries| > 0 {
      LastIsBlank(s, entries[..|entries| - 1], source);
    }
  }

  /** The count header, read back with `to_i`, is the number of notifications. */
  lemma CountReadsBack(count: nat)
    ensures ToI(NatToDecimal(count)) == count
  {
    ToIOfDecimal(count);
  }

  /** With distinct identifiers, the application icon's resource holds the application image. */
  lemma RegisteredAppIcon(icon: Option<Icon>, notifications: Entries<Bytes, Registration>, source: nat -> Bytes,
                          start: nat)
    requires Injective(source) && IsDataIcon(icon)
    ensures Get(Registered(icon, notifications, source, start).resources, source(start)) == Some(icon.value.data)
  {
    var s := RegisterStart(icon, |notifications|, source, start);
    RegisterFoldKeeps(s, notifications, source, start);
    GetPut([], source(start), icon.value.data, source(start));
  }

  /** With distinct identifiers, the i-th notification's icon resource holds its image. */
  lemma RegisteredNotificationIcon(icon: Option<Icon>, notifications: Entries<Bytes, Registration>,
                                   source: nat -> Bytes, start: nat, i: nat)
    requires Injective(source) && i < |notifications| && IsDataIcon(notifications[i].1.icon)
    ensures var id := source(AppIconStep(icon, source, start).next + DataIcons(notifications[..i]));
      && Get(Registered(icon, notifications, source, start).resources, id) == Some(notifications[i].1.icon.value.data)
      && Field(NOTIFICATION_ICON, ResourceReference(id)) in GroupAt(notifications, i, source, AppIconStep(icon, source, start).next)
  {
    var s := RegisterStart(icon, |notifications|, source, start);
    RegisterFoldResources(s, notifications, source, i);
    var id := source(s.next + DataIcons(notifications[..i]));
    NotificationGroupContents(notifications[i].0, notifications[i].1, id);
  }

  // ---------------------------------------------------------------------------
  // The registry

  /** The registry `new` starts with: each name registered with no display name, no icon, enabled. */
  function DefaultRegistry(names: seq<Bytes>): Entries<Bytes, Registration>
  {
    if |names| == 0 then []
    else Put(DefaultRegistry(names[..|names| - 1]), names[|names| - 1], Registration(None, None, true))
  }

  /** Exactly the given names are registered, each with the defaults, each once. */
  lemma {:induction false} DefaultRegistryContents(names: seq<Bytes>, k: Bytes)
    ensures Get(DefaultRegistry(names), k) == if k in names then Some(Registration(None, None, true)) else None
    ensures DistinctKeys(DefaultRegistry(names))
  {
    if |names| > 0 {
      var init := names[..|names| - 1];
      DefaultRegistryContents(init, k);
      GetPut(DefaultRegistry(init), names[|names| - 1], Registration(None, None, true), k);
      PutDistinct(DefaultRegistry(init), names[|names| - 1], Registration(None, None, true));
      assert names == init + [names[|names| - 1]];
    }
  }

  // ---------------------------------------------------------------------------
  // Identifiers

  /** The UUID generator a client holds; `source(n)` is the n-th identifier it hands out. */
  class Uuid {
    const source: nat -> Bytes
    var count: nat

    constructor (source: nat -> Bytes)
      ensures this.source == source && count == 0
    {
      this.source := source;
      count := 0;
    }

    /** `generate` */
    method Generate() returns (id: Bytes)
      modifies this
      ensures id == source(old(count)) && count == old(count) + 1
    {
      id := source(count);
      count := count + 1;
    }
  }

  /** A `Growl::GNTP` client. */
  class Client {
    /** `@application` */
    const application: Bytes
    /** `RUBY_VERSION`, sent in the envelope */
    const rubyVersion: Bytes
    /** `Digest::SHA512` */
    const sha512: Sha512
    /** The OpenSSL ciphers */
    const encipher: Encipher
    /** `@notifications`: name to registration, in insertion order */
    var notifications: Entries<Bytes, Registration>
    /** `@encrypt`: `NONE`, or a key of `ENCRYPTION_ALGORITHMS` */
    var encrypt: Bytes
    /** `@password` */
    var password: Option<Bytes>
    /** `@icon`: the application icon */
    var icon: Option<Icon>
    /** `@uuid` */
    var uuid: Uuid
    /** The requests handed to the socket, oldest first. */
    var sent: seq<Bytes>

    /** `new`: registers each given name with the defaults; no encryption, no password, no icon. */
    constructor (application: Bytes, notificationNames: Option<seq<Bytes>>, rubyVersion: Bytes, sha512: Sha512,
                 encipher: Encipher, uuidSource: nat -> Bytes)
      ensures this.application == application && this.rubyVersion == rubyVersion
      ensures this.sha512 == sha512 && this.encipher == encipher
      ensures notifications == DefaultRegistry(if notificationNames.Some? then notificationNames.value else [])
      ensures encrypt == A("NONE") && password == None && icon == None && sent == []
      ensures fresh(uuid) && uuid.source == uuidSource && uuid.count == 0
    {
      this.application := application;
      this.rubyVersion := rubyVersion;
      this.sha512 := sha512;
      this.encipher := encipher;
      notifications := [];
      uuid := new Uuid(uuidSource);
      encrypt := A("NONE");
      password := None;
      icon := None;
      sent := [];
      new;
      if notificationNames.Some? {
        var names := notificationNames.value;
        for i := 0 to |names|
          modifies this`notifications
          invariant notifications == DefaultRegistry(names[..i])
        {
          AddNotification(names[i], None, None, true);
          assert names[..i + 1][..i] == names[..i];
        }
        assert names[..|names|] == names;
      }
    }

    /** `add_notification`: stores the registration under the name, replacing an earlier one in place. */
    method AddNotification(name: Bytes, displayName: Option<Bytes>, icon: Option<Icon>, enabled: bool)
      modifies this`notifications
      ensures notifications == Put(old(notifications), name, Registration(displayName, icon, enabled))
    {
      notifications := Put(notifications, name, Registration(displayName, icon, enabled));
    }

    /** The request `packet` builds from this client's settings. */
    function RequestOf(packetType: Bytes, headers: seq<Header>, resources: Entries<Bytes, Bytes>, salt: Bytes,
                       randomIv: Bytes): Result<Bytes, Error>
      reads this
    {
      Request(application, rubyVersion, encrypt, password, sha512, encipher, packetType, headers, resources, salt,
              randomIv)
    }

    /**
     * `packet`: joins the envelope and the headers into the body, adds the
     * information line, then appends one block per resource, encrypting
     * body and resources when a mode other than `NONE` is set. `salt` is
     * what `salt` returns and `randomIv` what `random_iv` returns.
     */
    method Packet(packetType: Bytes, headers: seq<Header>, resources: Entries<Bytes, Bytes>, salt: Bytes,
                  randomIv: Bytes) returns (r: Result<Bytes, Error>)
      ensures r == RequestOf(packetType, headers, resources, salt, randomIv)
    {
      var lines := Envelope(application, rubyVersion) + headers;
      var body := Join(RenderHeaders(lines + [Blank]), CRLF);
      BodyJoin(lines);
      var key: Option<Bytes> := None;
      var keyInfo: Option<Bytes> := None;
      if password.Some? {
        var k := KeyHashOf(password.value, salt, sha512);
        key := Some(k.key);
        keyInfo := Some(KeyInfo(k));
      }
      var info: Bytes;
      var cipher: Option<CipherState> := None;
      if encrypt == A("NONE") {
        info := Join([A("GNTP/1.0"), packetType, A("NONE")] + (if keyInfo.Some? then [keyInfo.value] else []), SPACE);
        PlainInfoLineJoin(packetType, keyInfo);
      } else {
        var c := Cipher(encrypt, key, None, randomIv);
        if c.Err? {
          RequestFails(application, rubyVersion, encrypt, password, sha512, encipher, packetType, headers, resources,
                       salt, randomIv);
          return Err(c.error);
        }
        cipher := Some(c.value);
        info := EncryptedInfoLine(packetType, encrypt, c.value.iv, keyInfo.value);
        body := encipher(c.value.algorithm, c.value.key, c.value.iv, body);
      }
      var packet := [info, body];
      for i := 0 to |resources|
        invariant packet == [info, body] + BlockParts(resources[..i], cipher, encipher)
      {
        var (id, data) := resources[i];
        if cipher.Some? {
          // `cipher key, iv`: a cipher with the same key and IV
          var again := Cipher(encrypt, key, Some(cipher.value.iv), randomIv);
          data := encipher(again.value.algorithm, again.value.key, again.value.iv, data);
        }
        packet := packet + BlockLines(id, data);
        assert resources[..i + 1][..i] == resources[..i];
      }
      assert resources[..|resources|] == resources;
      packet := packet + [[], []];
      RequestJoin(info, body, BlockParts(resources, cipher, encipher));
      BlockPartsTerminated(resources, cipher, encipher);
      RequestBuilt(application, rubyVersion, encrypt, password, sha512, encipher, packetType, headers, resources,
                   salt, randomIv);
      r := Ok(Join(packet, CRLF));
    }

    /**
     * `packet_notify`: refuses a priority outside -2..2; otherwise takes an
     * identifier for an image icon's resource, then one for the notification,
     * and builds the NOTIFY request.
     */
    method PacketNotify(name: Bytes, title: Bytes, text: Option<Bytes>, priority: int, sticky: bool,
                        coalesceId: Option<Bytes>, callback: Callback, salt: Bytes, randomIv: Bytes)
      returns (r: Result<Bytes, Error>)
      modifies uuid
      ensures !(-2 <= priority <= 2) ==> r == Err(InvalidPriority(priority)) && uuid.count == old(uuid.count)
      ensures -2 <= priority <= 2 ==>
        var icon := IconOf(notifications, name);
        var first := old(uuid.count);
        var idAt := if IsDataIcon(icon) then first + 1 else first;
        && uuid.count == idAt + 1
        && r == RequestOf(A("NOTIFY"), NotifyHeaders(uuid.source(idAt), name, title, text, priority, sticky,
                                                     coalesceId, icon, uuid.source(first), callback),
                          IconResources(icon, uuid.source(first)), salt, randomIv)
    {
      if !(-2 <= priority <= 2) {
        return Err(InvalidPriority(priority));
      }
      ghost var first := uuid.count;
      var resources: Entries<Bytes, Bytes> := [];
      var icon := IconOf(notifications, name);
      var resourceId: Bytes := [];
      if icon.Some? && icon.value.DataIcon? {
        resourceId := uuid.Generate();
        resources := Put(resources, resourceId, icon.value.data);
      }
      var notificationId := uuid.Generate();
      var headers := NotifyHeaders(notificationId, name, title, text, priority, sticky, coalesceId, icon,
                                   resourceId, callback);
      ghost var idAt := if IsDataIcon(icon) then first + 1 else first;
      assert notificationId == uuid.source(idAt) && uuid.count == idAt + 1;
      assert IsDataIcon(icon) ==> resourceId == uuid.source(first);
      assert IconHeaders(NOTIFICATION_ICON, icon, resourceId) == IconHeaders(NOTIFICATION_ICON, icon, uuid.source(first));
      assert resources == IconResources(icon, uuid.source(first));
      r := Packet(A("NOTIFY"), headers, resources, salt, randomIv);
    }

    /**
     * `packet_register`: the application icon, the count, then one group per
     * notification in registry order, taking an identifier for each image
     * icon; the last blank line is popped.
     */
    method PacketRegister(salt: Bytes, randomIv: Bytes) returns (r: Result<Bytes, Error>)
      modifies uuid
      ensures var g := Registered(icon, notifications, uuid.source, old(uuid.count));
        uuid.count == g.next && r == RequestOf(A("REGISTER"), g.headers, g.resources, salt, randomIv)
    {
      var headers, resources := RegisterApplicationIcon();
      headers := headers + [Field(NOTIFICATIONS_COUNT, NatToDecimal(|notifications|))];
      headers := headers + [Blank];
      ghost var start := Registering(headers, resources, uuid.count);
      assert start == RegisterStart(icon, |notifications|, uuid.source, old(uuid.count));
      var i := 0;
      while i < |notifications|
        invariant 0 <= i <= |notifications|
        invariant Registering(headers, resources, uuid.count) == RegisterFold(start, notifications[..i], uuid.source)
      {
        var (name, reg) := notifications[i];
        headers, resources := RegisterNotification(headers, resources, name, reg);
        assert notifications[..i + 1][..i] == notifications[..i];
        i := i + 1;
      }
      assert notifications[..|notifications|] == notifications;
      ghost var f := RegisterFold(start, notifications, uuid.source);
      assert headers == f.headers && resources == f.resources && uuid.count == f.next;
      headers := headers[..|headers| - 1];
      ghost var g := Registered(icon, notifications, uuid.source, old(uuid.count));
      assert g == Registering(headers, resources, uuid.count);
      r := Packet(A("REGISTER"), headers, resources, salt, randomIv);
    }

    /** The `Application-Icon` part of `packet_register`: a URI, or a reference to a new resource. */
    method RegisterApplicationIcon() returns (headers: seq<Header>, resources: Entries<Bytes, Bytes>)
      modifies uuid
      ensures Registering(headers, resources, uuid.count) == AppIconStep(icon, uuid.source, old(uuid.count))
    {
      resources := [];
      headers := [];
      if icon.Some? && icon.value.UriIcon? {
        headers := headers + [Field(APPLICATION_ICON, icon.value.uri)];
      } else if icon.Some? {
        var appIconId := uuid.Generate();
        headers := headers + [Field(APPLICATION_ICON, ResourceReference(appIconId))];
        resources := Put(resources, appIconId, icon.value.data);
      }
    }

    /** One turn of the loop of `packet_register`: the notification's group and its icon resource, if any. */
    method RegisterNotification(headers: seq<Header>, resources: Entries<Bytes, Bytes>, name: Bytes, reg: Registration)
      returns (headers': seq<Header>, resources': Entries<Bytes, Bytes>)
      modifies uuid
      ensures Registering(headers', resources', uuid.count)
              == RegisterStep(Registering(headers, resources, old(uuid.count)), name, reg, uuid.source)
    {
      var id: Bytes := [];
      resources' := resources;
      if reg.icon.Some? && reg.icon.value.DataIcon? {
        id := uuid.Generate();
        resources' := Put(resources', id, reg.icon.value.data);
      } else {
        GroupWithoutResource(name, reg, id, uuid.source(uuid.count));
      }
      headers' := headers + NotificationGroup(name, reg, id);
    }

    /** `register`: sends the REGISTER request. */
    method Register(salt: Bytes, randomIv: Bytes) returns (r: Result<(), Error>)
      modifies this, uuid
      ensures var g := Registered(old(icon), old(notifications), uuid.source, old(uuid.count));
        var p := Request(application, rubyVersion, old(encrypt), old(password), sha512, encipher, A("REGISTER"),
                         g.headers, g.resources, salt, randomIv);
        && uuid == old(uuid) && uuid.count == g.next
        && (r.Ok? <==> p.Ok?) && (r.Err? ==> r.error == p.error)
        && sent == (if p.Ok? then old(sent) + [p.value] else old(sent))
      ensures notifications == old(notifications) && encrypt == old(encrypt) && password == old(password)
              && icon == old(icon)
    {
      var p := PacketRegister(salt, randomIv);
      if p.Err? {
        return Err(p.error);
      }
      sent := sent + [p.value];
      return Ok(());
    }

    /**
     * `notify`: refuses a callback URL together with a block before anything
     * else, then sends the NOTIFY request with the callback they ask for.
     */
    method Notify(name: Bytes, title: Bytes, text: Option<Bytes>, priority: int, sticky: bool,
                  coalesceId: Option<Bytes>, callbackUrl: Option<Bytes>, block: bool, salt: Bytes, randomIv: Bytes)
      returns (r: Result<(), Error>)
      modifies this, uuid
      ensures uuid == old(uuid) && notifications == old(notifications) && encrypt == old(encrypt)
              && password == old(password) && icon == old(icon)
      ensures block && callbackUrl.Some? ==> r == Err(AmbiguousCallback) && sent == old(sent)
                                             && uuid.count == old(uuid.count)
      ensures !(block && callbackUrl.Some?) && !(-2 <= priority <= 2) ==>
                r == Err(InvalidPriority(priority)) && sent == old(sent) && uuid.count == old(uuid.count)
      ensures !(block && callbackUrl.Some?) && -2 <= priority <= 2 ==>
        var icon := IconOf(notifications, name);
        var first := old(uuid.count);
        var idAt := if IsDataIcon(icon) then first + 1 else first;
        var p := RequestOf(A("NOTIFY"), NotifyHeaders(uuid.source(idAt), name, title, text, priority, sticky,
                                                      coalesceId, icon, uuid.source(first),
                                                      CallbackOf(callbackUrl, block)),
                           IconResources(icon, uuid.source(first)), salt, randomIv);
        && uuid.count == idAt + 1
        && (r.Ok? <==> p.Ok?) && (r.Err? ==> r.error == p.error)
        && sent == (if p.Ok? then old(sent) + [p.value] else old(sent))
    {
      if block && callbackUrl.Some? {
        return Err(AmbiguousCallback);
      }
      var callback := if callbackUrl.Some? then UrlCallback(callbackUrl.value)
                      else if block then BlockCallback else NoCallback;
      var p := PacketNotify(name, title, text, priority, sticky, coalesceId, callback, salt, randomIv);
      if p.Err? {
        return Err(p.error);
      }
      sent := sent + [p.value];
      return Ok(());
    }
  }
}
