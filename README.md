# ruby-growl codecs in Dafny

A model of the wire codecs of ruby-growl, a Ruby client for the Growl
notification system, with proofs about them. It covers three parts.

- **The legacy UDP protocol** of Growl 1.2 and older. This is `Growl::UDP` in
  `lib/ruby-growl/udp.rb` and its earlier copy, the top-level class `Growl` in
  `lib/ruby-growl.rb`.
  - A registration packet has:
    - the version and type bytes;
    - a 16-bit application-name length;
    - two 8-bit counts;
    - the application name;
    - one length-prefixed record per notification;
    - one index byte per default notification;
    - the MD5 checksum.
  - A notification packet has:
    - the version and type bytes;
    - a flag word `((priority & 7) << 1) | sticky` in host byte order;
    - four big-endian length fields;
    - the name, title, description and application name;
    - the MD5 of everything before it, followed by the password.
  - Ruby strings are sequences of characters, and each character is the one to
    four bytes that encode it. This keeps `String#length` and
    `String#bytesize` apart, because the source uses both.
  - Both notifier classes send packets. The socket is modelled as the list of
    packets handed to it.
- **GNTP 1.0**, the text protocol of Growl 1.3 (`Growl::GNTP` in
  `lib/ruby-growl/gntp.rb`).
  - The client keeps an insertion-ordered hash of registrations. It builds
    REGISTER and NOTIFY requests from:
    - an information line;
    - CRLF-separated header lines;
    - resource blocks for image icons, referenced as
      `x-growl-resource://<uuid>`.
  - It can add the `SHA512:<hash>.<salt>` key-info token. It can also encrypt
    the body and the resources with DES, 3DES or AES in CBC mode, using one key
    and IV. Encryption without a password fails: the key is then `nil`.
  - Responses are parsed by `receive`:
    - the information line is matched;
    - each header value is coerced by the kind of header;
    - the header hash is returned on `-OK` / `-CALLBACK`;
    - otherwise the `ERROR_MAP` condition of the `Error-Code` header is raised.
- **`URI::XGrowlResource`** (`lib/uri/x_growl_resource.rb`): the URIs with
  which a request refers to one of its resources. It covers the unique-id
  check, `build`, construction, `unique_id=` and `to_s`.

Several things are parameters of the model:
- SHA-512, MD5, the block ciphers, the random salt and IV, and the UUID
  generator;
- the URI parser's host pattern;
- the host's byte order.

The files are:

| file | contents |
|---|---|
| `results.dfy` | Option and Result values |
| `wire.dfy` | bytes, joins and splits, `strip`, `to_s`/`to_i`, `Digest.hexencode`, the `pack` directives |
| `ordered.dfy` | Ruby `Hash` semantics |
| `binary_codec.dfy` | the UDP packets, their reference readers and round trips |
| `growl_udp.dfy` | `Growl::UDP` |
| `legacy_growl.dfy` | `Growl` |
| `x_growl_resource.dfy` | `URI::XGrowlResource` |
| `gntp.dfy` | the GNTP client and its requests |
| `gntp_response.dfy` | `parse_header` and `receive` |

Points where the code behaves in a way a reader may not expect, and which
the model follows:
- **A default notification that is not one of the "all" notifications.**
  `all.index(default)` is then `nil`, yet the loop still adds a `C`
  directive for it, so `Array#pack` raises `ArgumentError` (too few
  arguments). The model returns `PackFailed(TooFewArguments)`
  (`lib/ruby-growl/udp.rb:195-202`).
- **Byte order.** The four length fields are packed with `n` (big-endian),
  but the flag word is packed with `v` or `n` according to the host's own
  byte order (`lib/ruby-growl/udp.rb:73-80`).
- **Name and title lengths.** The title length field and the registration
  records use `String#length`, a character count, where the other length
  fields use `bytesize`. This is modelled both as written and corrected; see
  Findings.
- **Header names in `parse_header`.** Its integer list names
  `Notifications-Priority` and its text list `Origin-Sofware-Name`
  (`lib/ruby-growl/gntp.rb:449`, `:468`). A received `Notification-Priority`
  is therefore kept as text, and so is a received `Origin-Software-Name`. The
  model keeps both spellings as written.
- **The error table.** `ERROR_MAP` has twelve codes, each with its own error
  class (`lib/ruby-growl/gntp.rb:121-134`).

## Model

| member | source | states |
|---|---|---|
| `BinaryCodec.LengthAtMostByteSize` | lib/ruby-growl/udp.rb:233-236 | a string's `length` never exceeds its `bytesize`, and the two are equal for ASCII text |
| `BinaryCodec.ChecksummedValid` | lib/ruby-growl/udp.rb:208-213 | a packet is its unsigned part, unchanged, followed by exactly 16 bytes, which are the MD5 of that part followed by the password; the password itself is not in the packet |
| `BinaryCodec.ChecksummedWithoutPassword` | lib/ruby-growl/udp.rb:208-209 | without a password the checksum is the MD5 of the packet alone |
| `BinaryCodec.IndexOf` | lib/ruby-growl/udp.rb:196 | `all.index(x)` is a position holding `x` with no earlier `x` |
| `BinaryCodec.NameRecordsSnoc` | lib/ruby-growl/udp.rb:189-193 | each turn of the loop over the notifications appends one record: the big-endian byte length of the name, then its bytes (the corrected record; see Findings) |
| `BinaryCodec.PresentIndicesSnoc` | lib/ruby-growl/udp.rb:195-198 | each turn of the loop over the defaults appends that default's index byte, or nothing when it is not registered |
| `BinaryCodec.BuildRegistrationPacket` | lib/ruby-growl/udp.rb:173-214 | the loops build exactly the corrected registration packet; when a default is not registered, the result is the pack error |
| `BinaryCodec.PresentIndicesLength` | lib/ruby-growl/udp.rb:184-198 | when every default is registered there is one index byte per default, as the default count announces |
| `BinaryCodec.DefaultIndexIsFirstPosition` | lib/ruby-growl/udp.rb:195-198 | the j-th index byte is the low byte of the first position of the j-th default in the "all" list |
| `BinaryCodec.RegistrationHeaderSlices` | lib/ruby-growl/udp.rb:177-187 | bytes 0-5 of a registration packet are 1, 0, the big-endian application-name length and the two counts; the application name follows |
| `BinaryCodec.ParseNameRecords` | lib/ruby-growl/udp.rb:189-193 | the records of the notification names read back as those names' bytes, in order, leaving what follows |
| `BinaryCodec.ParseRegistrationLayout` | lib/ruby-growl/udp.rb:177-206 | a packet laid out as header, name, records, indices and checksum is read field by field into those parts |
| `BinaryCodec.RegistrationRoundTrip` | lib/ruby-growl/udp.rb:173-214 | a registration packet whose lengths and counts fit their fields builds, and reads back as the application name, every notification name in order, one index per default and the checksum |
| `BinaryCodec.Flags` | lib/ruby-growl/udp.rb:228-230 | the flag word fits in four bits |
| `BinaryCodec.FlagsRoundTrip` | lib/ruby-growl/udp.rb:228-230 | the flag word keeps every priority in -4..3 as a 3-bit two's-complement field, and the sticky bit |
| `BinaryCodec.FlagsValues` | lib/ruby-growl/udp.rb:228-230 | priorities -2, -1, 0, 1 and 2 give 0x0c, 0x0e, 0, 0x02 and 0x04; sticky alone gives 0x01; bit 0 is always the sticky bit |
| `BinaryCodec.FlagsFieldRead` | lib/ruby-growl/udp.rb:73-80 | the flag field read in host byte order (`v` little-endian, `n` big-endian) gives the flag word |
| `BinaryCodec.BuildNotificationPacket` | lib/ruby-growl/udp.rb:219-252 | the step-by-step flag and field pushes build exactly the corrected notification packet |
| `BinaryCodec.NotificationHeaderFields` | lib/ruby-growl/udp.rb:223-236 | a notification packet holds version 1, type 1, the flag field, then the name, title, description and application lengths, big-endian, at bytes 4-11 |
| `BinaryCodec.NotificationHeaderSlices` | lib/ruby-growl/udp.rb:223-236 | the twelve fixed bytes, two per field, in the order of the pushes |
| `BinaryCodec.PacketStartsWithHeader` | lib/ruby-growl/udp.rb:223-244 | a notification packet starts with its twelve fixed bytes, whose length fields are the byte counts of the four strings |
| `BinaryCodec.FlagsByteOrder` | lib/ruby-growl/udp.rb:73-80 | on a little-endian host the flag word is sent low byte first and on a big-endian host high byte first, while the four length fields stay big-endian |
| `BinaryCodec.ParseNotificationLayout` | lib/ruby-growl/udp.rb:232-244 | a notification packet is read as its fixed fields, then the name, title, description and application name joined without separators, then the checksum |
| `BinaryCodec.NotificationRoundTrip` | lib/ruby-growl/udp.rb:219-252 | a notification packet whose strings fit their 16-bit fields reads back as its flag word, the four strings in order and the MD5 checksum |
| `BinaryCodec.AsciiTitleAgrees` | lib/ruby-growl/udp.rb:234 | for an ASCII title, `title.length` is its byte count, so the packet as written is the intended one |
| `BinaryCodec.AsciiNamesAgree` | lib/ruby-growl/udp.rb:189-193 | for ASCII names the records as written (`na#{notify.length}`) are the intended ones |
| `BinaryCodec.AsciiRegistrationAgrees` | lib/ruby-growl/udp.rb:173-214 | for ASCII notification names the registration packet as written is the intended one |
| `BinaryCodec.TitleLengthMismatch` | lib/ruby-growl/udp.rb:234 | whenever a title's character count differs from its byte count, the notification packet as written is rejected by a reader of the layout |
| `BinaryCodec.TitleLengthCounterexample` | lib/ruby-growl/udp.rb:234 | the title "π" makes the packet as written unreadable, while the intended packet reads back |
| `BinaryCodec.RegistrationNameCounterexample` | lib/ruby-growl/udp.rb:190-192 | the notification name "π" is truncated to its first byte in the registration packet as written, while the intended packet keeps it whole |
| `BinaryCodec.AsciiSingleRegistrationPrefix` | lib/ruby-growl/udp.rb:177-206 | the registration of one ASCII notification that is also the default is 1, 0, the name length, 1, 1, the application name, the record and index 0 |
| `BinaryCodec.GrowlnotifyRegistrationPrefix` | test/test_growl_udp.rb:50-69 | the unsigned part of the `growlnotify` registration is the byte string of the test, up to its checksum |
| `BinaryCodec.GrowlnotifyRegistration` | test/test_growl_udp.rb:50-69 | `growlnotify` registering "Command-Line Growl Notification" gives that byte string followed by its MD5 |
| `BinaryCodec.AsciiNotificationPrefix` | lib/ruby-growl/udp.rb:223-244 | a notification with ASCII strings and an empty title is its fixed fields followed by the name, description and application name |
| `BinaryCodec.GrowlnotifyNotificationPacket` | test/test_growl_udp.rb:71-91 | the `growlnotify` notification "hi" has lengths 31, 0, 2 and 11, the three strings, and their MD5, at any priority |
| `GrowlUdp.NotifyGuard` | lib/ruby-growl/udp.rb:144-149 | no error exactly when the type is registered and the priority is in -2..2; an unknown type raises "Unknown Notification" before the priority is checked |
| `GrowlUdp.DefaultsOrAllRegistered` | lib/ruby-growl/udp.rb:125 | leaving the defaults out turns every notification on, and that registration always packs |
| `GrowlUdp.Udp.constructor` | lib/ruby-growl/udp.rb:120-126 | the fields are the arguments, `nil` defaults standing for all notifications; nothing is sent yet |
| `GrowlUdp.Udp.Create` | lib/ruby-growl/udp.rb:120-129 | `new` sends exactly the corrected registration packet, or raises its pack error |
| `GrowlUdp.Udp.Register` | lib/ruby-growl/udp.rb:157-159 | `register` appends the corrected registration packet to what was sent, or raises the pack error and sends nothing |
| `GrowlUdp.Udp.RegistrationPacket` | lib/ruby-growl/udp.rb:173-214 | the corrected registration packet of the notifier's own fields |
| `GrowlUdp.Udp.NotificationPacket` | lib/ruby-growl/udp.rb:219-252 | the corrected notification packet of the notifier's application, password and byte order |
| `GrowlUdp.Udp.Notify` | lib/ruby-growl/udp.rb:144-152 | `notify` succeeds exactly for a registered type and a priority in -2..2 and then sends exactly its corrected notification packet; otherwise it raises the guard's error and sends nothing |
| `LegacyGrowl.NotifyGuard` | lib/ruby-growl.rb:336-338 | no error exactly when the type is registered and the priority is in -2..2; otherwise a RuntimeError "Unknown Notification", or "Invalid Priority" |
| `LegacyGrowl.Growl.constructor` | lib/ruby-growl.rb:310-318 | the fields are the arguments, `nil` defaults standing for all notifications; nothing is sent yet |
| `LegacyGrowl.Growl.Create` | lib/ruby-growl.rb:310-321 | `new` sends exactly the corrected registration packet, or raises its pack error |
| `LegacyGrowl.Growl.Register` | lib/ruby-growl.rb:346-348 | `register` appends the corrected registration packet to what was sent, or raises and sends nothing |
| `LegacyGrowl.Growl.RegistrationPacket` | lib/ruby-growl.rb:362-404 | the same corrected registration packet as `Growl::UDP` |
| `LegacyGrowl.Growl.NotificationPacket` | lib/ruby-growl.rb:409-442 | the same corrected notification packet as `Growl::UDP` |
| `LegacyGrowl.Growl.Notify` | lib/ruby-growl.rb:336-341 | `notify` sends exactly its corrected notification packet for a registered type and a priority in -2..2, and otherwise raises before sending |
| `XGrowlResource.CheckUniqueId` | lib/uri/x_growl_resource.rb:59-69 | `nil` and the empty id pass; any other id passes exactly when it matches both the host pattern and `\A[\w-]+\z`, else InvalidComponentError with the id |
| `XGrowlResource.InitialUniqueId` | lib/uri/x_growl_resource.rb:23-38 | construction succeeds exactly when the host is a unique id (and, with argument checks, passes `unique_id=`), and the id is then the host; any other host raises "unrecognized opaque part" |
| `XGrowlResource.Render` | lib/uri/x_growl_resource.rb:40-42 | `to_s` is the scheme, `://`, then the unique id (nothing for `nil`) |
| `XGrowlResource.Components` | test/test_growl_gntp.rb:1047-1050 | text taken apart as `<scheme>://<host>` is exactly the join of those parts |
| `XGrowlResource.ComponentsOfRender` | lib/uri/x_growl_resource.rb:40-42 | the text of a URI of unique id `id` parses back to the scheme `x-growl-resource` and `id` |
| `XGrowlResource.Resource.Init` | lib/uri/x_growl_resource.rb:23-26 | the generic constructor stores the scheme and host |
| `XGrowlResource.Resource.New` | lib/uri/x_growl_resource.rb:23-38 | `new` fails exactly as `InitialUniqueId` says, and otherwise returns a fresh URI whose unique id is its host |
| `XGrowlResource.Resource.Build` | lib/uri/x_growl_resource.rb:11-21 | `build` succeeds exactly for a unique id that passes the host pattern; the URI then holds that id and the scheme it was given, and prints as `<scheme>://<id>` |
| `XGrowlResource.Resource.Parse` | lib/uri/x_growl_resource.rb:73-75 | the model refuses text that is not `<scheme>://<id characters>` with an `InvalidURIError` (the reduced parser, see Left out); otherwise it succeeds exactly when the id is a unique id the host pattern accepts (the parser, its last argument, is truthy, so `unique_id=` checks the id), raising `initialize`'s or `check_unique_id`'s error otherwise, and the URI then prints as that text again |
| `XGrowlResource.Resource.SetUniqueId` | lib/uri/x_growl_resource.rb:44-47 | `unique_id=` returns the check's verdict and changes the unique id only when the check passes, leaving scheme and host alone |
| `XGrowlResource.RenderParses` | lib/uri/x_growl_resource.rb:40-42 | a unique id prints as `x-growl-resource://` and the id, that text parses back to the id, and the checked construction accepts it exactly when the host pattern does |
| `XGrowlResource.BuildWithoutIdFails` | lib/uri/x_growl_resource.rb:14-18 | `build` without a unique id, or with the empty one, leaves the empty host, and construction then fails |
| `OrderedMaps.GetSpec` | lib/ruby-growl/gntp.rb:203 | in a hash with distinct keys, a key is found exactly when it is a key, and then with its entry's value |
| `OrderedMaps.GetPut` | lib/ruby-growl/gntp.rb:203 | after `hash[k] = v`, `k` gives `v` and every other key gives what it gave before |
| `OrderedMaps.KeysPut` | lib/ruby-growl/gntp.rb:203 | `hash[k] = v` keeps the key order, appending `k` only when it is new |
| `OrderedMaps.PutDistinct` | lib/ruby-growl/gntp.rb:203 | `hash[k] = v` keeps every key unique |
| `OrderedMaps.PutAbsent` | lib/ruby-growl/gntp.rb:203 | storing under a new key appends the entry |
| `Wire.UnHexOfHex` | lib/ruby-growl/gntp.rb:298 | `Digest.hexencode` loses nothing: decoding its digits gives the bytes back |
| `Wire.ToIOfDecimal` | lib/ruby-growl/gntp.rb:447-452 | `to_i` of the decimal text of any integer is that integer |
| `Wire.ToIOfPrefixedDecimal` | lib/ruby-growl/gntp.rb:447-452 | `to_i` skips a `0d`/`0D` prefix after the sign, so `0d` or `-0D` before the decimal text of an integer still reads as that integer, and the prefix alone reads as 0 |
| `Wire.StripAround` | lib/ruby-growl/gntp.rb:490 | `strip` removes exactly the whitespace around text that starts and ends with something else |
| `Gntp.KeyHashOf` | lib/ruby-growl/gntp.rb:240-250 | `key_hash` returns the salt it was given and a 128-digit hex hash |
| `Gntp.KeyInfoRoundTrip` | lib/ruby-growl/gntp.rb:295-299 | the key-info token carries the key's hash and the salt, and a receiver that knows the password accepts it: SHA-512 of the password and salt, hashed again, is the hash |
| `Gntp.EncryptionAlgorithmInverse` | lib/ruby-growl/gntp.rb:136-140 | `ENCRYPTION_ALGORITHMS` maps exactly DES, 3DES and AES, each to its own cipher |
| `Gntp.NoneIsNotAnAlgorithm` | lib/ruby-growl/gntp.rb:136-140 | `NONE` has no cipher |
| `Gntp.Cipher` | lib/ruby-growl/gntp.rb:210-227 | `cipher` fails with "unknown GNTP encryption mode" unless the mode is in the table, then fails when the key is missing; otherwise it uses the table's algorithm and the key, and the IV given or else the random one |
| `Gntp.PlainInfoLineJoin` | lib/ruby-growl/gntp.rb:302 | `compact.join(' ')` of the info-line parts is `GNTP/1.0 <type> NONE`, with the key-info token last when there is one |
| `Gntp.BodyJoin` | lib/ruby-growl/gntp.rb:284-293 | the body lines with `nil` last, joined by CRLF, give each line followed by CRLF |
| `Gntp.BlockLinesTerminated` | lib/ruby-growl/gntp.rb:327-331 | a resource block is `Identifier: id`, `Length: n`, a blank line, the data and a blank line, each followed by CRLF |
| `Gntp.BlockPartsTerminated` | lib/ruby-growl/gntp.rb:317-332 | the resource lines of all resources, in hash order, are the concatenated resource blocks |
| `Gntp.RequestJoin` | lib/ruby-growl/gntp.rb:334-337 | the request's lines with two trailing `nil`s, joined by CRLF, are information line, body, blocks and a final CRLF |
| `Gntp.RequestFails` | lib/ruby-growl/gntp.rb:304-305 | for a mode other than `NONE` whose cipher cannot be set up, the request raises the cipher's error |
| `Gntp.ClearRequestLines` | lib/ruby-growl/gntp.rb:281-338 | a request sent under `NONE`, split at CRLF, reads back as the plain information line (with the key-info token when there is a password), the six envelope header lines and the given headers, a blank line, the `Identifier`, `Length`, blank, data, blank lines of each resource in the hash's order, and two blank lines, when no given text holds a carriage return |
| `Gntp.ResourceReferenceIsUri` | lib/ruby-growl/gntp.rb:368 | `x-growl-resource://<id>` is the text of the resource URI of `id`, parses back to that id, and is accepted by `URI()` exactly when the host pattern accepts the id |
| `Gntp.CallbackOf` | lib/ruby-growl/gntp.rb:268 | the callback is the URL when one is given, else `true` exactly when a block is given |
| `Gntp.CallbackHeadersNames` | lib/ruby-growl/gntp.rb:370-375 | the context and context-type headers appear exactly for a callback, and the target only for a URL |
| `Gntp.NotifyHeadersSplit` | lib/ruby-growl/gntp.rb:359-375 | a NOTIFY header other than id, name and title is present exactly when its option is set |
| `Gntp.NotifyHeadersPresence` | lib/ruby-growl/gntp.rb:359-375 | the id comes first; `Notification-Priority` is present exactly when the priority is not zero, `Notification-Sticky` exactly when sticky, and the text, coalescing id, icon and callback headers exactly when given |
| `Gntp.PriorityHeaderReadsBack` | lib/ruby-growl/gntp.rb:365 | the priority header's value read back with `to_i` is the priority. This is `to_i` applied to the text, not a round trip through `receive`: `parse_header` lists `Notifications-Priority` (`lib/ruby-growl/gntp.rb:449`), so a received `Notification-Priority` stays text |
| `Gntp.GroupWithoutResource` | lib/ruby-growl/gntp.rb:411-419 | only an image icon makes a notification's headers depend on the next identifier |
| `Gntp.RegisterFold` | lib/ruby-growl/gntp.rb:404-422 | adding notifications only appends headers, at least one per notification |
| `Gntp.RegisterFoldNext` | lib/ruby-growl/gntp.rb:413-418 | the loop takes one identifier per image icon |
| `Gntp.RegisterFoldShape` | lib/ruby-growl/gntp.rb:404-422 | the loop appends each notification's header group in registry order |
| `Gntp.NotificationGroupContents` | lib/ruby-growl/gntp.rb:405-421 | a group starts with `Notification-Name`, has `Notification-Display-Name` exactly when one is set and `Notification-Enabled: true` exactly when enabled, gives a URI icon directly and an image icon as a resource reference, and ends with a blank line |
| `Gntp.DataIconsGrow` | lib/ruby-growl/gntp.rb:413-418 | each image icon takes an identifier after those of earlier image icons |
| `Gntp.RegisterFoldResources` | lib/ruby-growl/gntp.rb:413-419 | with distinct identifiers, the resource named by a notification's icon reference holds that notification's image |
| `Gntp.RegisterFoldKeeps` | lib/ruby-growl/gntp.rb:413-419 | the loop never overwrites a resource stored before it |
| `Gntp.RegisteredPrefix` | lib/ruby-growl/gntp.rb:388-401 | a REGISTER request starts with `Application-Icon` exactly when there is an icon, then `Notifications-Count` with the number of registered notifications |
| `Gntp.RegisteredGroups` | lib/ruby-growl/gntp.rb:383-424 | after the count and a blank line, every notification's group follows in registry order, the last blank line popped; one identifier is taken per image icon |
| `Gntp.LastIsBlank` | lib/ruby-growl/gntp.rb:421-424 | the headers always end with a blank line, so `headers.pop` removes a blank line |
| `Gntp.CountReadsBack` | lib/ruby-growl/gntp.rb:401 | the count header read back with `to_i` is the number of notifications |
| `Gntp.RegisteredAppIcon` | lib/ruby-growl/gntp.rb:393-399 | with distinct identifiers, the application icon's resource holds the application image |
| `Gntp.RegisteredNotificationIcon` | lib/ruby-growl/gntp.rb:411-419 | with distinct identifiers, the i-th notification's reference names a resource holding its image |
| `Gntp.DefaultRegistryContents` | lib/ruby-growl/gntp.rb:187-189 | the names given to `new` are registered, each once, with no display name, no icon and enabled, and no other name is |
| `Gntp.Uuid.constructor` | lib/ruby-growl/gntp.rb:185 | a new generator has handed out nothing |
| `Gntp.Uuid.Generate` | lib/ruby-growl/gntp.rb:354 | `generate` hands out the next identifier |
| `Gntp.Client.constructor` | lib/ruby-growl/gntp.rb:181-194 | `new` registers the given names with the defaults and sets encryption `NONE`, no password and no icon |
| `Gntp.Client.AddNotification` | lib/ruby-growl/gntp.rb:202-204 | `add_notification` stores `[display_name, icon, enabled]` under the name, in place when the name is already registered |
| `Gntp.Client.Packet` | lib/ruby-growl/gntp.rb:281-338 | the lines `packet` appends, joined, are the request of the client's application, mode, password and ciphers |
| `Gntp.Client.PacketNotify` | lib/ruby-growl/gntp.rb:343-378 | a priority outside -2..2 raises "invalid priority level" before an identifier is taken; otherwise an image icon takes the first identifier for its resource, the next one is the notification id, and the NOTIFY request is built from those headers and resources |
| `Gntp.Client.PacketRegister` | lib/ruby-growl/gntp.rb:383-427 | the REGISTER request is built from the registered headers and resources, and one identifier is taken per image icon |
| `Gntp.Client.RegisterApplicationIcon` | lib/ruby-growl/gntp.rb:388-399 | a URI icon gives its header; an image gives a reference header and a resource under a new identifier; no icon gives nothing |
| `Gntp.Client.RegisterNotification` | lib/ruby-growl/gntp.rb:404-422 | one turn of the loop adds that notification's group and its icon resource, if any |
| `Gntp.Client.Register` | lib/ruby-growl/gntp.rb:520-522 | `register` sends exactly the REGISTER request, or raises its error and sends nothing, and leaves the registry and settings alone |
| `Gntp.Client.Notify` | lib/ruby-growl/gntp.rb:262-274 | a URL together with a block raises before anything else; a bad priority raises next; otherwise exactly the NOTIFY request with the callback they ask for is sent, or its error raised |
| `GntpResponse.ErrorMapInverse` | lib/ruby-growl/gntp.rb:121-134 | `ERROR_MAP` maps a code to a condition exactly when that is the condition's code |
| `GntpResponse.ErrorMapCodes` | lib/ruby-growl/gntp.rb:121-134 | the codes of `ERROR_MAP` are exactly 200, 201, 300-303, 400-404 and 500 |
| `GntpResponse.BooleanHeadersDisjoint` | lib/ruby-growl/gntp.rb:435-477 | the boolean headers are not among those whose coercion raises on a missing value |
| `GntpResponse.IntegerHeadersDisjoint` | lib/ruby-growl/gntp.rb:435-477 | the five integer headers are neither boolean nor coerced by a raising call |
| `GntpResponse.BooleanValue` | lib/ruby-growl/gntp.rb:438-444 | a line reading true or yes (any case) gives true; otherwise one reading false or no gives false; anything else stays text |
| `GntpResponse.ParseHeader` | lib/ruby-growl/gntp.rb:432-481 | the key is kept; a missing value raises exactly for the headers coerced by `Time.parse`, `force_encoding` or `URI()` |
| `GntpResponse.NullIsNil` | lib/ruby-growl/gntp.rb:433 | `(null)` is nil whatever the header |
| `GntpResponse.IntegerReadsBack` | lib/ruby-growl/gntp.rb:447-452 | an integer header reads back the number its decimal text spells |
| `GntpResponse.TrueReadsBack` | lib/ruby-growl/gntp.rb:436-439 | a boolean header with a one-line true or yes, in any case, reads as true |
| `GntpResponse.FlagsReadBack` | lib/ruby-growl/gntp.rb:436-439 | `Notification-Enabled: true` and `Notification-Sticky: True`, as the client sends them, read as true |
| `GntpResponse.ResourceIconReadsBack` | lib/ruby-growl/gntp.rb:474-477 | a `Notification-Icon` with a resource reference reads as the URI of that resource, whose unique id is the identifier |
| `GntpResponse.SplitHeaderOfRender` | lib/ruby-growl/gntp.rb:501 | a header line as the client writes it splits back into its name and value |
| `GntpResponse.ParseLine` | lib/ruby-growl/gntp.rb:500-503 | with `Time.parse` and `URI()` taken never to raise on text that is present, a header line raises only for a typed header whose value is missing |
| `GntpResponse.Collect` | lib/ruby-growl/gntp.rb:500-504 | `flat_map` gives one pair per line, or the error of one of the lines |
| `GntpResponse.CollectOk` | lib/ruby-growl/gntp.rb:500-504 | the lines are collected exactly when every line parses, and then into each line's pair |
| `GntpResponse.ParseHeaders` | lib/ruby-growl/gntp.rb:500-504 | one pair per header line, or a missing-value error |
| `GntpResponse.ParseHeadersOk` | lib/ruby-growl/gntp.rb:500-504 | the header lines parse exactly when each of them does, and then into the pairs of the lines, in order |
| `GntpResponse.HashOfGet` | lib/ruby-growl/gntp.rb:506 | `Hash[*pairs]` holds each key once, with the value of its last line |
| `GntpResponse.HashOfDistinct` | lib/ruby-growl/gntp.rb:506 | lines with distinct keys make a hash of exactly those pairs, in order |
| `GntpResponse.InfoFields` | lib/ruby-growl/gntp.rb:493 | a line matches `GNTP/([\d.]+) (\S+) (\S+)` only as the information line of a version and two tokens |
| `GntpResponse.InfoLineOfFields` | lib/ruby-growl/gntp.rb:493 | a line of `GNTP/` and three space-separated fields is the information line of those fields |
| `GntpResponse.InfoFieldsOfLine` | lib/ruby-growl/gntp.rb:493 | the information line of a version and two tokens matches, with those three fields |
| `GntpResponse.FirstInfo` | lib/ruby-growl/gntp.rb:492-493 | `^...$` on the info text matches exactly when one of its lines matches, giving that line's fields |
| `GntpResponse.MatchInfoOfLine` | lib/ruby-growl/gntp.rb:492-498 | an information line matches on its own |
| `GntpResponse.Receive` | lib/ruby-growl/gntp.rb:487-515 | an unmatched info line raises the info-line error; a response returns exactly when the line matches, its headers parse (no typed header lacks its value; `Time.parse` and `URI()` are taken never to raise on text that is present) and the status is -OK or -CALLBACK, and then returns their hash; a refusal carries that hash, the condition of its `Error-Code` and its `Error-Description` |
| `GntpResponse.ResponseLinesOf` | lib/ruby-growl/gntp.rb:490 | `strip.split "\r\n"` of non-empty lines joined by CRLF, with whitespace around them, gives exactly those lines |
| `GntpResponse.ReceiveLines` | lib/ruby-growl/gntp.rb:490-492 | a response's info line and header lines split back apart |
| `GntpResponse.ReceiveSingle` | lib/ruby-growl/gntp.rb:487-508 | a success response with one header line returns the hash of that header |
| `GntpResponse.ReceiveOk` | test/test_growl_gntp.rb:1174-1184 | the `-OK` response to a registration returns `{Response-Action => REGISTER}` |
| `GntpResponse.ReceiveRefusal` | lib/ruby-growl/gntp.rb:508-514 | a non-success response whose `Error-Code` is in `ERROR_MAP` raises that condition with its description and the headers hash |
| `GntpResponse.NullLineParses` | lib/ruby-growl/gntp.rb:433 | a line `<name>: (null)` is the name with nil |
| `GntpResponse.CodeLineParses` | lib/ruby-growl/gntp.rb:447-452 | an `Error-Code` line reads as its number |
| `GntpResponse.ErrorHeaderLinesParse` | test/test_growl_gntp.rb:1080-1172 | the header lines of the error responses give nil action, nil description and the code |
| `GntpResponse.ErrorHeadersHash` | lib/ruby-growl/gntp.rb:506-512 | those headers make a hash with the code under `Error-Code` and nil under `Error-Description` |
| `GntpResponse.ReceiveErrorCode` | test/test_growl_gntp.rb:1080-1172 | an `-ERROR` response with a code of `ERROR_MAP` raises that code's condition with a nil description and the three headers |

## Left out

- Sockets. The UDP `send`, `set_sndbuf` and `socket` (connection and broadcast detection) are left out, and so are the GNTP `connect` and `send`, including reading the response and the callback frame. The notifiers record the packets they hand over in `sent`, and `receive` takes the response as bytes.
- The `host` argument of the constructors: it only addresses the socket.
- MD5, SHA-512, DES/3DES/AES-CBC with their padding, `salt` (`OpenSSL::Random`), `random_iv` and UUID generation. These are foreign libraries, so they are parameters: functions for the digests and the cipher, bytes for the salt and IV, a sequence for the identifiers.
- `Time.parse` and `URI()` in `parse_header`: their results are kept as the tagged text they were given, and they are taken never to raise on text that is present. In the source, `Time.parse` raises `ArgumentError` on text that is not a time (`lib/ruby-growl/gntp.rb:446`). `URI value` raises `URI::InvalidURIError` on text that is not a URI, and `InvalidComponentError` on an `x-growl-resource` URI whose host is not a unique id (`lib/ruby-growl/gntp.rb:476`, `lib/uri/x_growl_resource.rb:35-36`). Neither error is modelled for a received header.
- URI::Generic and the URI parser. The host pattern is a parameter. Only URI text of the form `<scheme>://<id characters>` is taken apart. Other URIs (user, port, path, query, fragment) are not modelled.
- The command line and discovery (`Growl.list`, `process_args`, `run`, `Growl.notify`): I/O and glue.
- The `BROKEN_PACK` branch for the Ruby of Mac OS X Tiger: it is taken as false.
- `$DEBUG` logging and `force_encoding`: neither changes any byte. A missing value for a text header still raises, as `nil.force_encoding` does.
- An `Error-Code` that `ERROR_MAP` does not know makes `.new` raise NoMethodError on nil. It is modelled as the generic failure `UnknownErrorCode`.
- The case-insensitive matches of `true`/`yes`/`false`/`no` fold ASCII letters only. Wider Unicode case folding is not modelled.
- The `attr_accessor`s `encrypt=`, `password=`, `icon=` and `uuid=` are plain field assignments. The fields are public mutable fields of `Gntp.Client`.
- `Gntp.KeyHashOf`: its own contract states only the hash's length and the salt. What the key and hash are is stated by `Gntp.KeyInfoRoundTrip` and by the function itself, because SHA-512 is a parameter. `key_hash` accepts any digest class; the model fixes SHA-512, the only one `packet` passes it (`lib/ruby-growl/gntp.rb:296`).
- `BinaryCodec.NameRecordsSnoc`: states the corrected record, the big-endian byte length and then the bytes of the name. The loop at `lib/ruby-growl/udp.rb:189-193` writes `notify.length` and cuts the name to that many bytes; see Findings.
- `BinaryCodec.BuildRegistrationPacket`: builds the corrected registration packet, not the `notify.length` records of `lib/ruby-growl/udp.rb:190-192`. The as-written packet is `BinaryCodec.RegistrationPacketAsWritten`, and for ASCII names the two are equal (`BinaryCodec.AsciiRegistrationAgrees`).
- `BinaryCodec.BuildNotificationPacket`: builds the corrected notification packet, with the title's byte count where `lib/ruby-growl/udp.rb:234` pushes `title.length`. The as-written packet is `BinaryCodec.NotificationPacketAsWritten`, and for an ASCII title the two are equal (`BinaryCodec.AsciiTitleAgrees`).
- `BinaryCodec.PacketStartsWithHeader`: states the title length field of the corrected packet, the title's byte count, not the `title.length` of `lib/ruby-growl/udp.rb:234`.
- `GrowlUdp.Udp.Create`: sends the corrected registration packet, not the one `lib/ruby-growl/udp.rb:190-192` builds for names with multi-byte characters.
- `GrowlUdp.Udp.Register`: appends the corrected registration packet, not the as-written one of `lib/ruby-growl/udp.rb:190-192`.
- `GrowlUdp.Udp.RegistrationPacket`: returns the corrected registration packet; it differs from `lib/ruby-growl/udp.rb:173-214` for names with multi-byte characters.
- `GrowlUdp.Udp.NotificationPacket`: returns the corrected notification packet; its title length field is the byte count, where `lib/ruby-growl/udp.rb:234` has `title.length`.
- `GrowlUdp.Udp.Notify`: sends the corrected notification packet. The default arguments `priority = 0, sticky = false` (`lib/ruby-growl/udp.rb:144`) are not modelled: every argument is passed.
- `LegacyGrowl.Growl.Create`: sends the corrected registration packet, not the one `lib/ruby-growl.rb:380-382` builds for names with multi-byte characters.
- `LegacyGrowl.Growl.Register`: appends the corrected registration packet, not the as-written one of `lib/ruby-growl.rb:380-382`.
- `LegacyGrowl.Growl.RegistrationPacket`: returns the corrected registration packet; it differs from `lib/ruby-growl.rb:362-404` for names with multi-byte characters.
- `LegacyGrowl.Growl.NotificationPacket`: returns the corrected notification packet; its title length field is the byte count, where `lib/ruby-growl.rb:424` has `title.length`.
- `LegacyGrowl.Growl.Notify`: sends the corrected notification packet. The default arguments `priority = 0, sticky = false` (`lib/ruby-growl.rb:336`) are not modelled: every argument is passed.
- `Gntp.BlockLinesTerminated`: GNTP strings are taken as binary, so `Length:` is the byte count of the data. For a text resource `data.length` (`lib/ruby-growl/gntp.rb:328`) counts characters, which differs for multi-byte text. The `Encoding::CompatibilityError` that `packet.join` can raise when it mixes encodings is not modelled either. The same holds for `Gntp.BlockLines` and `Gntp.ResourceBlock`.
- `Gntp.Client.Packet`: its request writes the byte count of each resource under `Length:`, for the reason given for `Gntp.BlockLinesTerminated`. The default arguments of `Gntp.Client.Notify` (`text = nil, priority = 0, sticky = false`, `lib/ruby-growl/gntp.rb:262-263`) are not modelled: every argument is passed.
- `XGrowlResource.Resource.Build`: the scheme is a parameter, because `URI::Util.make_components_hash` and `URI::Generic.build`, which supply it, are not part of this model. The checks `URI::Generic#initialize` makes with argument checking on (scheme, and host with their own messages) are not modelled. A host the pattern refuses is refused either way, but the message may differ.
- `XGrowlResource.Resource.Parse`: keeps the scheme as written. The URI library's `set_scheme`, which lowercases it, is not part of this model. That the parser passes itself as the last argument to `new`, so that `args[-1]` is truthy, follows the URI library's calling convention; the library is not part of this model.

## Findings

| source | as written | input that shows it | evidently intended | confidence | as-written member | corrected member |
|---|---|---|---|---|---|---|
| lib/ruby-growl/udp.rb:234 (also lib/ruby-growl.rb:424) | the title length field holds `title.length`, the character count, while the title's bytes are sent | the title "π" (one character, two UTF-8 bytes): the field announces 1, the packet carries 2, and the lengths no longer add up to the packet's size | `title.bytesize`, like the other three length fields | not executed | `BinaryCodec.TitleLengthMismatch` | `BinaryCodec.NotificationRoundTrip` |
| lib/ruby-growl/udp.rb:190-192 (also lib/ruby-growl.rb:380-382) | each notification record uses `notify.length` both as its length field and in the `a` directive, so `a<length>` cuts a multi-byte name short | the notification name "π": the record is `00 01 CF`, and a receiver reads the name as the single byte CF | `notify.bytesize` in both places | not executed | `BinaryCodec.RegistrationNameCounterexample` | `BinaryCodec.RegistrationRoundTrip` |

The notifier classes use the corrected packets, `BinaryCodec.NotificationPacket`
and `BinaryCodec.RegistrationPacket`. The as-written ones,
`NotificationPacketAsWritten` and `RegistrationPacketAsWritten`, agree with them
for ASCII text (`BinaryCodec.AsciiTitleAgrees`,
`BinaryCodec.AsciiRegistrationAgrees`).
