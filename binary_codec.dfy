/**
 * The legacy Growl UDP packet codec (Growl 1.2 and older), shared by
 * `Growl::UDP` and by the older top-level `Growl` class, which carry the same
 * two packet builders. A packet is a two-byte header
 * `{protocol version 1, packet type}`, a block of fixed-width fields, a data
 * section, and a 16-byte MD5 checksum over everything before it followed by
 * the password.
 *
 * Ruby strings are modelled as sequences of characters, each character being
 * the bytes that encode it, so that the character count (`String#length`) and
 * the byte count (`String#bytesize`) can differ as they do for UTF-8 text.
 */
module BinaryCodec {
  import opened Results
  import opened Wire

  /** One character of a Ruby string, as the one to four bytes that encode it. */
  type Char = c: Bytes | 1 <= |c| <= 4 witness [0]

  /** A Ruby string: its characters in order. */
  type Text = seq<Char>

  /** The bytes of a string. */
  function Encoded(t: Text): Bytes
  {
    if t == [] then [] else t[0] + Encoded(t[1..])
  }

  /** `String#bytesize` */
  function ByteSize(t: Text): nat
  {
    |Encoded(t)|
  }

  /** A string whose every character is one ASCII byte. */
  predicate IsAscii(t: Text)
  {
    forall i :: 0 <= i < |t| ==> |t[i]| == 1 && t[i][0] < 128
  }

  /** A string literal of ASCII characters. */
  function Ascii(s: string): Text
  {
    seq(|s|, i requires 0 <= i < |s| => [(s[i] as int) % 256])
  }

  /** Each character has at least one byte, so `length <= bytesize`, equality holding for ASCII. */
  lemma {:induction false} LengthAtMostByteSize(t: Text)
    ensures |t| <= ByteSize(t)
    ensures IsAscii(t) ==> ByteSize(t) == |t|
  {
    if t != [] {
      LengthAtMostByteSize(t[1..]);
    }
  }

  lemma {:induction false} EncodedAscii(s: string)
    ensures Encoded(Ascii(s)) == A(s)
  {
    if s != [] {
      assert Ascii(s)[1..] == Ascii(s[1..]);
      EncodedAscii(s[1..]);
      assert A(s) == [A(s)[0]] + A(s[1..]);
    }
  }

  /** `Encoded` distributes over concatenation. */
  lemma {:induction false} EncodedAppend(a: Text, b: Text)
    ensures Encoded(a + b) == Encoded(a) + Encoded(b)
  {
    if a != [] {
      calc {
        Encoded(a + b);
        { assert (a + b)[0] == a[0]; assert (a + b)[1..] == a[1..] + b; }
        a[0] + Encoded(a[1..] + b);
        { EncodedAppend(a[1..], b); }
        a[0] + Encoded(a[1..]) + Encoded(b);
      }
    } else {
      assert a + b == b;
    }
  }

  // ---------------------------------------------------------------------------
  // Constants of the protocol

  const PROTOCOL_VERSION: byte := 1
  const TYPE_REGISTRATION: byte := 0
  const TYPE_NOTIFICATION: byte := 1

  /** An MD5 digest. */
  type Digest = d: Bytes | |d| == 16 witness seq(16, _ => 0)

  /** The MD5 function of the digest library, supplied by the caller. */
  type Md5 = Bytes -> Digest

  /** The bytes fed to the checksum after the packet: the password's, if there is one. */
  function PasswordBytes(password: Option<Text>): Bytes
  {
    if password.Some? then Encoded(password.value) else []
  }

  /** A packet followed by `MD5(packet ++ password)`. */
  function Checksummed(prefix: Bytes, password: Option<Text>, md5: Md5): Bytes
  {
    prefix + md5(prefix + PasswordBytes(password))
  }

  /** Whether the last 16 bytes of `p` are the MD5 of the bytes before them followed by the password. */
  predicate ChecksumValid(p: Bytes, password: Option<Text>, md5: Md5)
  {
    |p| >= 16 && p[|p| - 16..] == md5(p[..|p| - 16] + PasswordBytes(password))
  }

  /**
   * Every checksummed packet verifies: its unsigned part is kept whole, it is
   * exactly 16 bytes longer, and its tail is the MD5 of that part followed by
   * the password, which itself is not part of the packet.
   */
  lemma ChecksummedValid(prefix: Bytes, password: Option<Text>, md5: Md5)
    ensures |Checksummed(prefix, password, md5)| == |prefix| + 16
    ensures Checksummed(prefix, password, md5)[..|prefix|] == prefix
    ensures ChecksumValid(Checksummed(prefix, password, md5), password, md5)
  {
    var p := Checksummed(prefix, password, md5);
    assert p[..|p| - 16] == prefix;
  }

  /** Without a password the checksum is the MD5 of the packet alone. */
  lemma ChecksummedWithoutPassword(prefix: Bytes, md5: Md5)
    ensures Checksummed(prefix, None, md5) == prefix + md5(prefix)
  {
    assert prefix + PasswordBytes(None) == prefix;
  }

  // ---------------------------------------------------------------------------
  // Registration packet

  /** Why `Array#pack` refused the data of a registration packet. */
  datatype PackError = TooFewArguments

  /** `all.index(x)`: the first position of `x`. */
  function IndexOf(all: seq<Text>, x: Text): (k: nat)
    requires x in all
    ensures k < |all| && all[k] == x
    ensures forall j :: 0 <= j < k ==> all[j] != x
  {
    if all[0] == x then 0 else 1 + IndexOf(all[1..], x)
  }

  /** One `(length, name)` record of the "all" list, the length being the name's byte count. */
  function Record(name: Text): Bytes
  {
    BE16(ByteSize(name)) + Encoded(name)
  }

  function NameRecords(all: seq<Text>): Bytes
  {
    if all == [] then [] else Record(all[0]) + NameRecords(all[1..])
  }

  /** One index byte for each default that is in the "all" list; the others supply no value. */
  function PresentIndices(defaults: seq<Text>, all: seq<Text>): Bytes
  {
    if defaults == [] then []
    else (if defaults[0] in all then [U8(IndexOf(all, defaults[0]))] else []) + PresentIndices(defaults[1..], all)
  }

  /** Every default is one of the "all" notifications, so each of the `C` directives gets a value. */
  predicate DefaultsRegistered(all: seq<Text>, defaults: seq<Text>)
  {
    forall i :: 0 <= i < |defaults| ==> defaults[i] in all
  }

  /** The registration packet before its checksum. */
  function RegistrationPrefix(appName: Text, all: seq<Text>, defaults: seq<Text>): Bytes
  {
    [PROTOCOL_VERSION, TYPE_REGISTRATION] + BE16(ByteSize(appName)) + [U8(|all|), U8(|defaults|)]
    + Encoded(appName) + NameRecords(all) + PresentIndices(defaults, all)
  }

  /** The registration packet, or the error `pack` raises when a default has no index. */
  function RegistrationPacket(appName: Text, all: seq<Text>, defaults: seq<Text>, password: Option<Text>, md5: Md5)
    : Result<Bytes, PackError>
  {
    if DefaultsRegistered(all, defaults)
    then Ok(Checksummed(RegistrationPrefix(appName, all, defaults), password, md5))
    else Err(TooFewArguments)
  }

  lemma {:induction false} NameRecordsSnoc(all: seq<Text>, x: Text)
    ensures NameRecords(all + [x]) == NameRecords(all) + Record(x)
  {
    if all != [] {
      assert (all + [x])[1..] == all[1..] + [x];
      NameRecordsSnoc(all[1..], x);
    }
  }

  lemma {:induction false} PresentIndicesSnoc(defaults: seq<Text>, x: Text, all: seq<Text>)
    ensures PresentIndices(defaults + [x], all)
         == PresentIndices(defaults, all) + (if x in all then [U8(IndexOf(all, x))] else [])
  {
    if defaults != [] {
      assert (defaults + [x])[1..] == defaults[1..] + [x];
      PresentIndicesSnoc(defaults[1..], x, all);
    }
  }

  /**
   * `registration_packet`: grows the data with the application name, then a
   * record per "all" notification, then an index byte per default, packs it
   * behind the fixed fields and appends the checksum.
   */
  method BuildRegistrationPacket(appName: Text, all: seq<Text>, defaults: seq<Text>, password: Option<Text>, md5: Md5)
    returns (r: Result<Bytes, PackError>)
    ensures r == RegistrationPacket(appName, all, defaults, password, md5)
  {
    var packet: Bytes := [PROTOCOL_VERSION, TYPE_REGISTRATION] + BE16(ByteSize(appName)) + [U8(|all|), U8(|defaults|)];
    var records: Bytes := [];
    var i := 0;
    while i < |all|
      invariant 0 <= i <= |all|
      invariant records == NameRecords(all[..i])
    {
      NameRecordsSnoc(all[..i], all[i]);
      assert all[..i + 1] == all[..i] + [all[i]];
      records := records + (BE16(ByteSize(all[i])) + Encoded(all[i]));
      i := i + 1;
    }
    assert all[..i] == all;
    var indices: Bytes := [];
    var missing := false;
    var j := 0;
    while j < |defaults|
      invariant 0 <= j <= |defaults|
      invariant indices == PresentIndices(defaults[..j], all)
      invariant missing <==> exists k :: 0 <= k < j && defaults[k] !in all
    {
      PresentIndicesSnoc(defaults[..j], defaults[j], all);
      assert defaults[..j + 1] == defaults[..j] + [defaults[j]];
      if defaults[j] in all {
        indices := indices + [U8(IndexOf(all, defaults[j]))];
      } else {
        missing := true;
      }
      j := j + 1;
    }
    assert defaults[..j] == defaults;
    assert missing <==> !DefaultsRegistered(all, defaults);
    if missing {
      r := Err(TooFewArguments);
    } else {
      packet := packet + Encoded(appName) + records + indices;
      assert packet == RegistrationPrefix(appName, all, defaults);
      r := Ok(packet + md5(packet + PasswordBytes(password)));
    }
  }

  /** When every default is registered there is one index byte per default. */
  lemma {:induction false} PresentIndicesLength(defaults: seq<Text>, all: seq<Text>)
    requires DefaultsRegistered(all, defaults)
    ensures |PresentIndices(defaults, all)| == |defaults|
  {
    if defaults != [] {
      PresentIndicesLength(defaults[1..], all);
    }
  }

  /** Each default's index byte is (the low byte of) that name's first position in the "all" list. */
  lemma {:induction false} DefaultIndexIsFirstPosition(defaults: seq<Text>, all: seq<Text>, j: nat)
    requires DefaultsRegistered(all, defaults)
    requires j < |defaults|
    ensures |PresentIndices(defaults, all)| == |defaults|
    ensures exists k :: (0 <= k < |all| && all[k] == defaults[j]
      && (forall m :: 0 <= m < k ==> all[m] != defaults[j])
      && PresentIndices(defaults, all)[j] == k % 256)
  {
    PresentIndicesLength(defaults, all);
    if j == 0 {
      var k := IndexOf(all, defaults[0]);
      assert PresentIndices(defaults, all)[0] == k % 256;
    } else {
      DefaultIndexIsFirstPosition(defaults[1..], all, j - 1);
      var k :| 0 <= k < |all| && all[k] == defaults[1..][j - 1]
        && (forall m :: 0 <= m < k ==> all[m] != defaults[1..][j - 1])
        && PresentIndices(defaults[1..], all)[j - 1] == k % 256;
      assert PresentIndices(defaults, all)[j] == k % 256;
    }
  }

  // ---------------------------------------------------------------------------
  // Reading a registration packet back

  /** The fields a receiver reads out of a registration packet. */
  datatype RegistrationFields = RegistrationFields(appName: Bytes, names: seq<Bytes>, defaults: Bytes, checksum: Bytes)

  /** `count` `(length, name)` records at the front of `b`, and what follows them. */
  function ParseRecords(b: Bytes, count: nat): Option<(seq<Bytes>, Bytes)>
    decreases count
  {
    if count == 0 then Some(([], b))
    else if |b| < 2 || |b| < 2 + ReadBE16(b, 0) then None
    else
      var len := ReadBE16(b, 0);
      match ParseRecords(b[2 + len..], count - 1)
      case None => None
      case Some(parsed) => Some(([b[2..2 + len]] + parsed.0, parsed.1))
  }

  /** The reference reader of registration packets, following the layout field by field. */
  function ParseRegistration(p: Bytes): Option<RegistrationFields>
  {
    if |p| < 6 || p[0] != PROTOCOL_VERSION || p[1] != TYPE_REGISTRATION || |p| < 6 + ReadBE16(p, 2) then None
    else
      var appLen := ReadBE16(p, 2);
      match ParseRecords(p[6 + appLen..], p[4])
      case None => None
      case Some(parsed) =>
        var rest := parsed.1;
        if |rest| != p[5] as int + 16 then None
        else Some(RegistrationFields(p[6..6 + appLen], parsed.0, rest[..p[5]], rest[p[5]..]))
  }

  function EncodedAll(names: seq<Text>): seq<Bytes>
  {
    if names == [] then [] else [Encoded(names[0])] + EncodedAll(names[1..])
  }

  /** Every name short enough for its 16-bit length field. */
  predicate NamesFit(names: seq<Text>)
  {
    forall i :: 0 <= i < |names| ==> ByteSize(names[i]) < 65536
  }

  /** A length-prefixed record reads back as its contents and what follows it. */
  lemma RecordSlices(x: Bytes, tail: Bytes)
    requires |x| < 65536
    ensures var b := BE16(|x|) + x + tail;
      |b| >= 2 + |x| && ReadBE16(b, 0) == |x| && b[2..2 + |x|] == x && b[2 + |x|..] == tail
  {
    var b := BE16(|x|) + x + tail;
    assert b[2..] == x + tail;
  }

  lemma {:induction false} ParseNameRecords(all: seq<Text>, rest: Bytes)
    requires NamesFit(all)
    ensures ParseRecords(NameRecords(all) + rest, |all|) == Some((EncodedAll(all), rest))
  {
    if all == [] {
      assert NameRecords(all) + rest == rest;
    } else {
      var x := Encoded(all[0]);
      var tail := NameRecords(all[1..]) + rest;
      assert NameRecords(all) + rest == BE16(|x|) + x + tail;
      RecordSlices(x, tail);
      ParseNameRecords(all[1..], rest);
    }
  }

  /**
   * Decoding a registration packet gives back the application name, every
   * notification name in order, one index per default and the checksum, as
   * long as the lengths and counts fit their fields.
   */
  lemma RegistrationRoundTrip(appName: Text, all: seq<Text>, defaults: seq<Text>, password: Option<Text>, md5: Md5)
    requires ByteSize(appName) < 65536 && |all| < 256 && |defaults| < 256 && NamesFit(all)
    requires DefaultsRegistered(all, defaults)
    ensures RegistrationPacket(appName, all, defaults, password, md5).Ok?
    ensures ParseRegistration(RegistrationPacket(appName, all, defaults, password, md5).value)
         == Some(RegistrationFields(Encoded(appName), EncodedAll(all), PresentIndices(defaults, all),
                                   md5(RegistrationPrefix(appName, all, defaults) + PasswordBytes(password))))
  {
    var c1, c2 := U8(|all|), U8(|defaults|);
    U8Small(|all|);
    U8Small(|defaults|);
    var prefix := RegistrationPrefix(appName, all, defaults);
    var sum := md5(prefix + PasswordBytes(password));
    var indices := PresentIndices(defaults, all);
    var e := Encoded(appName);
    PresentIndicesLength(defaults, all);
    ParseNameRecords(all, indices + sum);
    assert prefix == [PROTOCOL_VERSION, TYPE_REGISTRATION] + BE16(|e|) + [c1, c2] + e + NameRecords(all) + indices;
    assert RegistrationPacket(appName, all, defaults, password, md5).value == prefix + sum;
    ParseRegistrationLayout(e, c1, c2, NameRecords(all), indices, sum, EncodedAll(all));
  }

  /** A registration packet is read as its fixed fields, the application name, the records, then indices and checksum. */
  lemma ParseRegistrationLayout(e: Bytes, allCount: byte, defaultCount: byte, records: Bytes, indices: Bytes,
                                sum: Digest, names: seq<Bytes>)
    requires |e| < 65536 && |indices| == defaultCount
    requires ParseRecords(records + (indices + sum), allCount) == Some((names, indices + sum))
    ensures ParseRegistration([PROTOCOL_VERSION, TYPE_REGISTRATION] + BE16(|e|) + [allCount, defaultCount]
                              + e + records + indices + sum)
         == Some(RegistrationFields(e, names, indices, sum))
  {
    var tail := records + (indices + sum);
    var p := [PROTOCOL_VERSION, TYPE_REGISTRATION] + BE16(|e|) + [allCount, defaultCount] + e + records + indices + sum;
    assert p == [PROTOCOL_VERSION, TYPE_REGISTRATION] + BE16(|e|) + [allCount, defaultCount] + e + tail;
    RegistrationHeaderSlices(e, allCount, defaultCount, tail);
    assert (indices + sum)[..defaultCount] == indices;
  }

  /** Where the fixed fields of a registration packet sit. */
  lemma RegistrationHeaderSlices(e: Bytes, allCount: byte, defaultCount: byte, tail: Bytes)
    requires |e| < 65536
    ensures var p := [PROTOCOL_VERSION, TYPE_REGISTRATION] + BE16(|e|) + [allCount, defaultCount] + e + tail;
      |p| >= 6 + |e| && p[0] == 1 && p[1] == 0 && ReadBE16(p, 2) == |e| && p[4] == allCount && p[5] == defaultCount
      && p[6..6 + |e|] == e && p[6 + |e|..] == tail
  {
    var p := [PROTOCOL_VERSION, TYPE_REGISTRATION] + BE16(|e|) + [allCount, defaultCount] + e + tail;
    assert p[6..] == e + tail;
  }

  // ---------------------------------------------------------------------------
  // Notification packet

  /** The flag word: priority as a 3-bit two's-complement field in bits 1-3, sticky in bit 0. */
  function Flags(priority: int, sticky: bool): (f: nat)
    ensures f < 16
  {
    (priority % 8) * 2 + (if sticky then 1 else 0)
  }

  /** The flag word in host byte order: `v` on little-endian hosts, `n` otherwise. */
  function FlagsField(flags: int, littleEndian: bool): Bytes
  {
    if littleEndian then LE16(flags) else BE16(flags)
  }

  /** The twelve bytes of fixed fields of a notification packet. */
  function NotificationHeader(flagsField: Bytes, n: int, t: int, d: int, a: int): Bytes
  {
    [PROTOCOL_VERSION, TYPE_NOTIFICATION] + flagsField + BE16(n) + BE16(t) + BE16(d) + BE16(a)
  }

  /** The notification packet before its checksum, with the given value in the title length field. */
  function NotificationPrefixWith(titleLength: int, littleEndian: bool, appName: Text, name: Text, title: Text,
                                  description: Text, priority: int, sticky: bool): Bytes
  {
    NotificationHeader(FlagsField(Flags(priority, sticky), littleEndian),
                       ByteSize(name), titleLength, ByteSize(description), ByteSize(appName))
    + Encoded(name) + Encoded(title) + Encoded(description) + Encoded(appName)
  }

  /** The notification packet before its checksum: every length field holds its string's byte count. */
  function NotificationPrefix(littleEndian: bool, appName: Text, name: Text, title: Text, description: Text,
                              priority: int, sticky: bool): Bytes
  {
    NotificationPrefixWith(ByteSize(title), littleEndian, appName, name, title, description, priority, sticky)
  }

  function NotificationPacket(littleEndian: bool, appName: Text, password: Option<Text>, md5: Md5,
                              name: Text, title: Text, description: Text, priority: int, sticky: bool): Bytes
  {
    Checksummed(NotificationPrefix(littleEndian, appName, name, title, description, priority, sticky), password, md5)
  }

  /**
   * `notification_packet`: the flag word is built with `|=`, the four
   * lengths are pushed in order, the four strings are joined without
   * separators, and the checksum is appended.
   */
  method BuildNotificationPacket(littleEndian: bool, appName: Text, password: Option<Text>, md5: Md5,
                                 name: Text, title: Text, description: Text, priority: int, sticky: bool)
    returns (packet: Bytes)
    ensures packet == NotificationPacket(littleEndian, appName, password, md5, name, title, description, priority, sticky)
  {
    // The two `|=` steps set disjoint bits of a zero word, so each is an addition.
    var flags := 0;
    flags := flags + (priority % 8) * 2;
    if sticky {
      flags := flags + 1;
    }
    assert flags == Flags(priority, sticky);
    var header: Bytes := [PROTOCOL_VERSION, TYPE_NOTIFICATION] + FlagsField(flags, littleEndian);
    header := header + BE16(ByteSize(name)) + BE16(ByteSize(title)) + BE16(ByteSize(description)) + BE16(ByteSize(appName));
    assert header == NotificationHeader(FlagsField(flags, littleEndian), ByteSize(name), ByteSize(title),
                                        ByteSize(description), ByteSize(appName));
    packet := header + Encoded(name) + Encoded(title) + Encoded(description) + Encoded(appName);
    assert packet == NotificationPrefix(littleEndian, appName, name, title, description, priority, sticky);
    packet := packet + md5(packet + PasswordBytes(password));
  }

  /** Reads the two's-complement priority and the sticky bit back out of a flag word. */
  function DecodeFlags(flags: nat): (int, bool)
  {
    var p := (flags / 2) % 8;
    (if p >= 4 then p - 8 else p, flags % 2 == 1)
  }

  /** The flag word keeps every priority a 3-bit field can hold, and the sticky bit. */
  lemma FlagsRoundTrip(priority: int, sticky: bool)
    requires -4 <= priority <= 3
    ensures DecodeFlags(Flags(priority, sticky)) == (priority, sticky)
  {
  }

  /** The flag words the protocol documents: priorities -2, -1, 1 and 2, and the sticky bit. */
  lemma FlagsValues()
    ensures Flags(-2, false) == 0x0c && Flags(-1, false) == 0x0e && Flags(0, false) == 0
    ensures Flags(1, false) == 0x02 && Flags(2, false) == 0x04 && Flags(0, true) == 0x01
    ensures forall p: int, s: bool :: Flags(p, s) % 2 == (if s then 1 else 0)
  {
  }

  /** The fields a receiver reads out of a notification packet on a host of the given byte order. */
  datatype NotificationFields = NotificationFields(flags: nat, name: Bytes, title: Bytes, description: Bytes,
                                                   appName: Bytes, checksum: Bytes)

  /** The reference reader of notification packets: flag word in host order, lengths big-endian. */
  function ParseNotification(p: Bytes, littleEndian: bool): Option<NotificationFields>
  {
    if |p| < 12 || p[0] != PROTOCOL_VERSION || p[1] != TYPE_NOTIFICATION then None
    else
      var n, t, d, a := ReadBE16(p, 4), ReadBE16(p, 6), ReadBE16(p, 8), ReadBE16(p, 10);
      var body := p[12..];
      if |body| != n + t + d + a + 16 then None
      else
        var afterName := body[n..];
        var afterTitle := afterName[t..];
        var afterDescription := afterTitle[d..];
        Some(NotificationFields(if littleEndian then ReadLE16(p, 2) else ReadBE16(p, 2),
                                body[..n], afterName[..t], afterTitle[..d],
                                afterDescription[..a], afterDescription[a..]))
  }

  lemma FlagsFieldRead(f: nat, littleEndian: bool)
    requires f < 65536
    ensures var ff := FlagsField(f, littleEndian);
      |ff| == 2 && (if littleEndian then ReadLE16(ff, 0) else ReadBE16(ff, 0)) == f
  {
  }

  lemma NotificationHeaderFields(flagsField: Bytes, n: nat, t: nat, d: nat, a: nat, body: Bytes)
    requires |flagsField| == 2 && n < 65536 && t < 65536 && d < 65536 && a < 65536
    ensures var p := NotificationHeader(flagsField, n, t, d, a) + body;
      |p| == 12 + |body| && p[0] == PROTOCOL_VERSION && p[1] == TYPE_NOTIFICATION
      && p[2] == flagsField[0] && p[3] == flagsField[1]
      && ReadBE16(p, 4) == n && ReadBE16(p, 6) == t && ReadBE16(p, 8) == d && ReadBE16(p, 10) == a
      && p[12..] == body
  {
    var p := NotificationHeader(flagsField, n, t, d, a) + body;
    assert p[12..] == body;
  }

  lemma NotificationBodySlices(n: Bytes, t: Bytes, d: Bytes, a: Bytes, sum: Bytes)
    ensures var body := n + t + d + a + sum;
      var afterName := body[|n|..];
      var afterTitle := afterName[|t|..];
      var afterDescription := afterTitle[|d|..];
      body[..|n|] == n && afterName[..|t|] == t && afterTitle[..|d|] == d
      && afterDescription[..|a|] == a && afterDescription[|a|..] == sum
  {
    var body := n + t + d + a + sum;
    assert body[|n|..] == t + d + a + sum;
    assert (t + d + a + sum)[|t|..] == d + a + sum;
    assert (d + a + sum)[|d|..] == a + sum;
  }

  /** A notification packet is read as its fixed fields, then the four strings in order, then the checksum. */
  lemma ParseNotificationLayout(littleEndian: bool, f: nat, n: Bytes, t: Bytes, d: Bytes, a: Bytes, sum: Digest)
    requires f < 65536 && |n| < 65536 && |t| < 65536 && |d| < 65536 && |a| < 65536
    ensures ParseNotification(NotificationHeader(FlagsField(f, littleEndian), |n|, |t|, |d|, |a|)
                              + (n + t + d + a + sum), littleEndian)
         == Some(NotificationFields(f, n, t, d, a, sum))
  {
    var ff := FlagsField(f, littleEndian);
    var body := n + t + d + a + sum;
    FlagsFieldRead(f, littleEndian);
    NotificationHeaderFields(ff, |n|, |t|, |d|, |a|, body);
    NotificationBodySlices(n, t, d, a, sum);
  }

  /**
   * Decoding a notification packet on a host of the same byte order gives back
   * the flag word, the name, title, description and application name in that
   * order, and the checksum, as long as each string fits its 16-bit field.
   */
  lemma NotificationRoundTrip(littleEndian: bool, appName: Text, password: Option<Text>, md5: Md5,
                              name: Text, title: Text, description: Text, priority: int, sticky: bool)
    requires ByteSize(name) < 65536 && ByteSize(title) < 65536
    requires ByteSize(description) < 65536 && ByteSize(appName) < 65536
    ensures ParseNotification(NotificationPacket(littleEndian, appName, password, md5, name, title, description,
                                                 priority, sticky), littleEndian)
         == Some(NotificationFields(Flags(priority, sticky), Encoded(name), Encoded(title), Encoded(description),
                                    Encoded(appName),
                                    md5(NotificationPrefix(littleEndian, appName, name, title, description, priority, sticky)
                                        + PasswordBytes(password))))
  {
    var prefix := NotificationPrefix(littleEndian, appName, name, title, description, priority, sticky);
    var sum := md5(prefix + PasswordBytes(password));
    var f := Flags(priority, sticky);
    var n, t, d, a := Encoded(name), Encoded(title), Encoded(description), Encoded(appName);
    var h := NotificationHeader(FlagsField(f, littleEndian), |n|, |t|, |d|, |a|);
    assert prefix == h + n + t + d + a;
    Associate(h, n, t, d, a, sum);
    ParseNotificationLayout(littleEndian, f, n, t, d, a, sum);
  }

  lemma Associate(h: Bytes, n: Bytes, t: Bytes, d: Bytes, a: Bytes, sum: Bytes)
    ensures h + n + t + d + a + sum == h + (n + t + d + a + sum)
  {
  }

  /** On a little-endian host the flag word is sent low byte first; on a big-endian host high byte first. */
  lemma FlagsByteOrder(littleEndian: bool, appName: Text, password: Option<Text>, md5: Md5,
                       name: Text, title: Text, description: Text, priority: int, sticky: bool)
    ensures var p := NotificationPacket(littleEndian, appName, password, md5, name, title, description, priority, sticky);
      |p| >= 12 && p[..2] == [1, 1]
      && p[2..4] == (if littleEndian then [Flags(priority, sticky), 0] else [0, Flags(priority, sticky)])
      && p[4..6] == BE16(ByteSize(name)) && p[6..8] == BE16(ByteSize(title))
      && p[8..10] == BE16(ByteSize(description)) && p[10..12] == BE16(ByteSize(appName))
  {
    var f := Flags(priority, sticky);
    var ff := FlagsField(f, littleEndian);
    var h := NotificationHeader(ff, ByteSize(name), ByteSize(title), ByteSize(description), ByteSize(appName));
    var p := NotificationPacket(littleEndian, appName, password, md5, name, title, description, priority, sticky);
    PacketStartsWithHeader(littleEndian, appName, password, md5, name, title, description, priority, sticky);
    NotificationHeaderSlices(ff, ByteSize(name), ByteSize(title), ByteSize(description), ByteSize(appName));
    assert p[..2] == h[..2] && p[2..4] == h[2..4] && p[4..6] == h[4..6];
    assert p[6..8] == h[6..8] && p[8..10] == h[8..10] && p[10..12] == h[10..12];
    FlagsFieldSmall(f, littleEndian);
  }

  /** A flag word below 256 is its own low byte, next to a zero high byte. */
  lemma FlagsFieldSmall(f: nat, littleEndian: bool)
    requires f < 256
    ensures FlagsField(f, littleEndian) == if littleEndian then [f, 0] else [0, f]
  {
  }

  /** A notification packet starts with its twelve bytes of fixed fields. */
  lemma PacketStartsWithHeader(littleEndian: bool, appName: Text, password: Option<Text>, md5: Md5,
                               name: Text, title: Text, description: Text, priority: int, sticky: bool)
    ensures var p := NotificationPacket(littleEndian, appName, password, md5, name, title, description, priority, sticky);
      |p| >= 12
      && p[..12] == NotificationHeader(FlagsField(Flags(priority, sticky), littleEndian), ByteSize(name), ByteSize(title),
                                       ByteSize(description), ByteSize(appName))
  {
    var prefix := NotificationPrefix(littleEndian, appName, name, title, description, priority, sticky);
    var h := NotificationHeader(FlagsField(Flags(priority, sticky), littleEndian), ByteSize(name), ByteSize(title),
                                ByteSize(description), ByteSize(appName));
    var n, t, d, a := Encoded(name), Encoded(title), Encoded(description), Encoded(appName);
    var sum := md5(prefix + PasswordBytes(password));
    assert prefix == h + n + t + d + a;
    Associate(h, n, t, d, a, sum);
    assert |h| == 12;
    assert (h + (n + t + d + a + sum))[..12] == h;
  }

  /** The fixed fields of a notification packet, two bytes each. */
  lemma NotificationHeaderSlices(flagsField: Bytes, n: int, t: int, d: int, a: int)
    requires |flagsField| == 2
    ensures var h := NotificationHeader(flagsField, n, t, d, a);
      |h| == 12 && h[..2] == [1, 1] && h[2..4] == flagsField
      && h[4..6] == BE16(n) && h[6..8] == BE16(t) && h[8..10] == BE16(d) && h[10..12] == BE16(a)
  {
  }

  // ---------------------------------------------------------------------------
  // Packets as the code writes them

  /**
   * The notification packet as `notification_packet` builds it: the title's
   * length field holds `title.length`, its character count, while the other
   * three length fields hold byte counts.
   */
  function NotificationPacketAsWritten(littleEndian: bool, appName: Text, password: Option<Text>, md5: Md5,
                                       name: Text, title: Text, description: Text, priority: int, sticky: bool): Bytes
  {
    Checksummed(NotificationPrefixWith(|title|, littleEndian, appName, name, title, description, priority, sticky),
                password, md5)
  }

  /** A registration record as `registration_packet` builds it: `na#{name.length}`, the character count for both. */
  function RecordAsWritten(name: Text): Bytes
  {
    LengthAtMostByteSize(name);
    BE16(|name|) + Encoded(name)[..|name|]
  }

  function NameRecordsAsWritten(all: seq<Text>): Bytes
  {
    if all == [] then [] else RecordAsWritten(all[0]) + NameRecordsAsWritten(all[1..])
  }

  function RegistrationPacketAsWritten(appName: Text, all: seq<Text>, defaults: seq<Text>, password: Option<Text>,
                                       md5: Md5): Result<Bytes, PackError>
  {
    if DefaultsRegistered(all, defaults)
    then Ok(Checksummed([PROTOCOL_VERSION, TYPE_REGISTRATION] + BE16(ByteSize(appName)) + [U8(|all|), U8(|defaults|)]
                        + Encoded(appName) + NameRecordsAsWritten(all) + PresentIndices(defaults, all), password, md5))
    else Err(TooFewArguments)
  }

  /** For an ASCII title the character count is the byte count, so the packet as written is the intended one. */
  lemma AsciiTitleAgrees(littleEndian: bool, appName: Text, password: Option<Text>, md5: Md5,
                         name: Text, title: Text, description: Text, priority: int, sticky: bool)
    requires IsAscii(title)
    ensures NotificationPacketAsWritten(littleEndian, appName, password, md5, name, title, description, priority, sticky)
         == NotificationPacket(littleEndian, appName, password, md5, name, title, description, priority, sticky)
  {
    LengthAtMostByteSize(title);
  }

  lemma {:induction false} AsciiNamesAgree(all: seq<Text>)
    requires forall i :: 0 <= i < |all| ==> IsAscii(all[i])
    ensures NameRecordsAsWritten(all) == NameRecords(all)
  {
    if all != [] {
      LengthAtMostByteSize(all[0]);
      AsciiNamesAgree(all[1..]);
    }
  }

  /** For ASCII notification names the registration packet as written is the intended one. */
  lemma AsciiRegistrationAgrees(appName: Text, all: seq<Text>, defaults: seq<Text>, password: Option<Text>, md5: Md5)
    requires forall i :: 0 <= i < |all| ==> IsAscii(all[i])
    ensures RegistrationPacketAsWritten(appName, all, defaults, password, md5)
         == RegistrationPacket(appName, all, defaults, password, md5)
  {
    AsciiNamesAgree(all);
  }

  /** "π": one character, two bytes in UTF-8. */
  const PI: Text := [[0xCF, 0x80]]

  /**
   * A title of one two-byte character: the packet as written announces a
   * one-byte title while carrying two, so its announced lengths no longer add
   * up to its size and a receiver rejects it; the intended packet reads back.
   */
  lemma TitleLengthCounterexample(md5: Md5)
    ensures ParseNotification(NotificationPacketAsWritten(false, Ascii("a"), None, md5, Ascii("b"), PI, [], 0, false), false)
         == None
    ensures ParseNotification(NotificationPacket(false, Ascii("a"), None, md5, Ascii("b"), PI, [], 0, false), false).Some?
  {
    EncodedAscii("a");
    EncodedAscii("b");
    assert Encoded(PI) == [0xCF, 0x80];
    var empty: Text := [];
    assert Encoded(empty) == [];
    TitleLengthMismatch(false, Ascii("a"), None, md5, Ascii("b"), PI, [], 0, false);
    NotificationRoundTrip(false, Ascii("a"), None, md5, Ascii("b"), PI, [], 0, false);
  }

  /**
   * Whenever the title's character count differs from its byte count, the
   * announced lengths of the packet as written do not add up to its size,
   * and a receiver rejects it.
   */
  lemma TitleLengthMismatch(littleEndian: bool, appName: Text, password: Option<Text>, md5: Md5,
                            name: Text, title: Text, description: Text, priority: int, sticky: bool)
    requires |title| != ByteSize(title)
    requires ByteSize(name) < 65536 && ByteSize(title) < 65536
    requires ByteSize(description) < 65536 && ByteSize(appName) < 65536
    ensures ParseNotification(NotificationPacketAsWritten(littleEndian, appName, password, md5, name, title, description,
                                                          priority, sticky), littleEndian) == None
  {
    var f := Flags(priority, sticky);
    var ff := FlagsField(f, littleEndian);
    var n, t, d, a := Encoded(name), Encoded(title), Encoded(description), Encoded(appName);
    var prefix := NotificationPrefixWith(|title|, littleEndian, appName, name, title, description, priority, sticky);
    var sum := md5(prefix + PasswordBytes(password));
    var h := NotificationHeader(ff, |n|, |title|, |d|, |a|);
    LengthAtMostByteSize(title);
    var p := NotificationPacketAsWritten(littleEndian, appName, password, md5, name, title, description, priority, sticky);
    assert p == h + (n + t + d + a + sum) by {
      assert prefix == h + n + t + d + a;
      Associate(h, n, t, d, a, sum);
    }
    FlagsFieldRead(f, littleEndian);
    NotificationHeaderFields(ff, |n|, |title|, |d|, |a|, n + t + d + a + sum);
  }

  /**
   * A notification name of one two-byte character: the registration packet as
   * written keeps only its first byte, so a receiver reads a different name;
   * the intended packet gives the name back whole.
   */
  lemma RegistrationNameCounterexample(md5: Md5)
    ensures RegistrationPacketAsWritten(Ascii("a"), [PI], [PI], None, md5).Ok?
    ensures var f := ParseRegistration(RegistrationPacketAsWritten(Ascii("a"), [PI], [PI], None, md5).value);
      f.Some? && f.value.names == [[0xCF]] != [Encoded(PI)]
    ensures var g := ParseRegistration(RegistrationPacket(Ascii("a"), [PI], [PI], None, md5).value);
      g.Some? && g.value.names == [Encoded(PI)]
  {
    EncodedAscii("a");
    assert A("a") == [97];
    assert Encoded(PI) == [0xCF, 0x80];
    assert RecordAsWritten(PI) == [0, 1, 0xCF];
    assert NameRecordsAsWritten([PI]) == [0, 1, 0xCF];
    assert PresentIndices([PI], [PI]) == [0];
    var prefix: Bytes := [1, 0, 0, 1, 1, 1, 97, 0, 1, 0xCF, 0];
    var sum := md5(prefix);
    assert DefaultsRegistered([PI], [PI]);
    assert [PROTOCOL_VERSION, TYPE_REGISTRATION] + BE16(ByteSize(Ascii("a"))) + [U8(1), U8(1)]
           + Encoded(Ascii("a")) + NameRecordsAsWritten([PI]) + PresentIndices([PI], [PI]) == prefix;
    ChecksummedWithoutPassword(prefix, md5);
    RecordSlices([0xCF], [0] + sum);
    assert BE16(1) + [0xCF] + ([0] + sum) == [0, 1, 0xCF] + ([0] + sum);
    var b := [0, 1, 0xCF] + ([0] + sum);
    assert ReadBE16(b, 0) == 1 && b[2..3] == [0xCF] && b[3..] == [0] + sum;
    assert ParseRecords(b[3..], 0) == Some(([], [0] + sum));
    assert [b[2..3]] + [] == [[0xCF]];
    assert ParseRecords(b, 1) == Some(([[0xCF]], [0] + sum));
    assert prefix + sum == [PROTOCOL_VERSION, TYPE_REGISTRATION] + BE16(|[97]|) + [1, 1] + [97] + [0, 1, 0xCF] + [0] + sum;
    ParseRegistrationLayout([97], 1, 1, [0, 1, 0xCF], [0], sum, [[0xCF]]);
    RegistrationRoundTrip(Ascii("a"), [PI], [PI], None, md5);
    assert EncodedAll([PI]) == [Encoded(PI)];
  }

  // ---------------------------------------------------------------------------
  // The packets of the growlnotify command-line tool

  /** The registration packet of `growlnotify`, before its checksum. */
  const GROWLNOTIFY_REGISTRATION: Bytes :=
    [0x01, 0x00] + [0x00, 0x0b] + [0x01, 0x01]
    + A("growlnotify") + ([0x00, 0x1f] + A("Command-Line Growl Notification")) + [0x00]

  /** `growlnotify` registers its single notification, which is also its default. */
  lemma GrowlnotifyRegistration(md5: Md5)
    ensures RegistrationPacket(Ascii("growlnotify"), [Ascii("Command-Line Growl Notification")],
                               [Ascii("Command-Line Growl Notification")], None, md5)
         == Ok(GROWLNOTIFY_REGISTRATION + md5(GROWLNOTIFY_REGISTRATION))
  {
    var name := Ascii("Command-Line Growl Notification");
    GrowlnotifyRegistrationPrefix();
    assert DefaultsRegistered([name], [name]);
    ChecksummedWithoutPassword(GROWLNOTIFY_REGISTRATION, md5);
  }

  lemma GrowlnotifyRegistrationPrefix()
    ensures RegistrationPrefix(Ascii("growlnotify"), [Ascii("Command-Line Growl Notification")],
                               [Ascii("Command-Line Growl Notification")]) == GROWLNOTIFY_REGISTRATION
  {
    AsciiSingleRegistrationPrefix("growlnotify", "Command-Line Growl Notification");
    assert BE16(11) == [0x00, 0x0b] && BE16(31) == [0x00, 0x1f];
  }

  /** The registration of one ASCII notification, which is also the default. */
  lemma AsciiSingleRegistrationPrefix(app: string, name: string)
    ensures RegistrationPrefix(Ascii(app), [Ascii(name)], [Ascii(name)])
         == [PROTOCOL_VERSION, TYPE_REGISTRATION] + BE16(|app|) + [1, 1] + A(app) + (BE16(|name|) + A(name)) + [0]
  {
    var n := Ascii(name);
    EncodedAscii(app);
    EncodedAscii(name);
    assert NameRecords([n]) == Record(n) + NameRecords([]);
    assert PresentIndices([n], [n]) == [U8(0)] + PresentIndices([], [n]);
  }

  /** The notification `growlnotify` sends with an empty title and the text "hi", before its checksum. */
  function GrowlnotifyNotification(flagsField: Bytes): Bytes
  {
    [0x01, 0x01] + flagsField + [0x00, 0x1f, 0x00, 0x00, 0x00, 0x02, 0x00, 0x0b]
    + A("Command-Line Growl Notification") + A("hi") + A("growlnotify")
  }

  /** A notification with ASCII strings and an empty title. */
  lemma AsciiNotificationPrefix(littleEndian: bool, app: string, name: string, text: string, priority: int)
    ensures NotificationPrefix(littleEndian, Ascii(app), Ascii(name), [], Ascii(text), priority, false)
         == NotificationHeader(FlagsField(Flags(priority, false), littleEndian), |name|, 0, |text|, |app|)
            + A(name) + A(text) + A(app)
  {
    EncodedAscii(app);
    EncodedAscii(name);
    EncodedAscii(text);
    var empty: Text := [];
    assert Encoded(empty) == [];
    assert A(name) + [] == A(name);
  }

  /**
   * The notification `growlnotify` sends, at any priority: the flag word (see
   * `FlagsValues`) in host byte order, then the lengths 31, 0, 2 and 11.
   */
  lemma GrowlnotifyNotificationPacket(md5: Md5, littleEndian: bool, priority: int)
    ensures var g := GrowlnotifyNotification(FlagsField(Flags(priority, false), littleEndian));
      NotificationPacket(littleEndian, Ascii("growlnotify"), None, md5, Ascii("Command-Line Growl Notification"),
                         [], Ascii("hi"), priority, false)
      == g + md5(g)
  {
    AsciiNotificationPrefix(littleEndian, "growlnotify", "Command-Line Growl Notification", "hi", priority);
    var ff := FlagsField(Flags(priority, false), littleEndian);
    assert NotificationHeader(ff, 31, 0, 2, 11) == [0x01, 0x01] + ff + [0x00, 0x1f, 0x00, 0x00, 0x00, 0x02, 0x00, 0x0b];
    ChecksummedWithoutPassword(GrowlnotifyNotification(ff), md5);
  }
}
