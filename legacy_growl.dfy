/**
 * The top-level `Growl` class of `ruby-growl.rb`: the original UDP notifier,
 * which `Growl::UDP` later copied. It connects to `GROWL_UDP_PORT`, registers
 * when it is created and sends one notification packet per `notify`; its
 * `notify` raises plain RuntimeErrors. The socket is modelled by the list of
 * packets handed to it.
 */
module LegacyGrowl {
  import opened Results
  import opened Wire
  import opened BinaryCodec
  import GrowlUdp

  /** `Growl::VERSION` */
  const VERSION := "3.0"

  /** `GROWL_UDP_PORT`, the port the constructor connects to. */
  const GROWL_UDP_PORT := 9887

  /** What `Growl` raises. */
  datatype Error =
    | RuntimeError(message: string)  // `raise "..."` in `notify`
    | PackFailed(cause: PackError)   // ArgumentError from `Array#pack` while registering

  const UNKNOWN_NOTIFICATION := "Unknown Notification"
  const INVALID_PRIORITY := "Invalid Priority"

  /** The error `notify` raises for a notification type and priority, if any. */
  function NotifyGuard(allNotifies: seq<Text>, notifyType: Text, priority: int): (e: Option<Error>)
    ensures e.None? <==> notifyType in allNotifies && -2 <= priority <= 2
    ensures notifyType !in allNotifies ==> e == Some(RuntimeError(UNKNOWN_NOTIFICATION))
    ensures notifyType in allNotifies && !(-2 <= priority <= 2) ==> e == Some(RuntimeError(INVALID_PRIORITY))
  {
    if notifyType !in allNotifies then Some(RuntimeError(UNKNOWN_NOTIFICATION))
    else if !(-2 <= priority <= 2) then Some(RuntimeError(INVALID_PRIORITY))
    else None
  }

  class Growl {
    const appName: Text
    const allNotifies: seq<Text>
    const defaultNotifies: seq<Text>
    const password: Option<Text>
    /** `LITTLE_ENDIAN`: the byte order of the host, which decides the flag word's order. */
    const littleEndian: bool
    /** `Digest::MD5` */
    const md5: Md5
    /** The packets handed to the socket, oldest first. */
    var sent: seq<Bytes>

    /** The field assignments of `initialize`; the registration it ends with is `Create`'s. */
    constructor (appName: Text, allNotifies: seq<Text>, defaultNotifies: Option<seq<Text>>, password: Option<Text>,
                 littleEndian: bool, md5: Md5)
      ensures this.appName == appName && this.allNotifies == allNotifies && this.password == password
      ensures this.defaultNotifies == GrowlUdp.DefaultsOrAll(allNotifies, defaultNotifies)
      ensures this.littleEndian == littleEndian && this.md5 == md5
      ensures sent == []
    {
      this.appName := appName;
      this.allNotifies := allNotifies;
      this.defaultNotifies := if defaultNotifies.None? then allNotifies else defaultNotifies.value;
      this.password := password;
      this.littleEndian := littleEndian;
      this.md5 := md5;
      sent := [];
    }

    /**
     * `Growl.new`: sets the fields, then registers; a default that is not
     * one of the notifications makes the registration, and so `new`, raise.
     */
    static method Create(appName: Text, allNotifies: seq<Text>, defaultNotifies: Option<seq<Text>>,
                         password: Option<Text>, littleEndian: bool, md5: Md5)
      returns (r: Result<Growl, Error>)
      ensures var p := BinaryCodec.RegistrationPacket(appName, allNotifies, GrowlUdp.DefaultsOrAll(allNotifies, defaultNotifies),
                                                      password, md5);
        (r.Ok? <==> p.Ok?) && (r.Err? ==> r.error == PackFailed(p.error)) && (r.Ok? ==> r.value.sent == [p.value])
      ensures r.Ok? ==> fresh(r.value)
      ensures r.Ok? ==> (r.value.appName == appName && r.value.allNotifies == allNotifies
                         && r.value.defaultNotifies == GrowlUdp.DefaultsOrAll(allNotifies, defaultNotifies)
                         && r.value.password == password && r.value.littleEndian == littleEndian && r.value.md5 == md5)
    {
      var u := new Growl(appName, allNotifies, defaultNotifies, password, littleEndian, md5);
      var registered := u.Register();
      if registered.Err? {
        return Err(registered.error);
      }
      return Ok(u);
    }

    /** `register`: sends the registration packet. */
    method Register() returns (r: Result<(), Error>)
      modifies this
      ensures var p := BinaryCodec.RegistrationPacket(appName, allNotifies, defaultNotifies, password, md5);
        (r.Ok? <==> p.Ok?) && (r.Err? ==> r.error == PackFailed(p.error))
        && sent == (if p.Ok? then old(sent) + [p.value] else old(sent))
    {
      var p := RegistrationPacket();
      if p.Err? {
        return Err(PackFailed(p.error));
      }
      sent := sent + [p.value];
      return Ok(());
    }

    /** `registration_packet` */
    method RegistrationPacket() returns (r: Result<Bytes, PackError>)
      ensures r == BinaryCodec.RegistrationPacket(appName, allNotifies, defaultNotifies, password, md5)
    {
      r := BuildRegistrationPacket(appName, allNotifies, defaultNotifies, password, md5);
    }

    /** `notification_packet` */
    method NotificationPacket(name: Text, title: Text, description: Text, priority: int, sticky: bool)
      returns (p: Bytes)
      ensures p == BinaryCodec.NotificationPacket(littleEndian, appName, password, md5, name, title, description,
                                                  priority, sticky)
    {
      p := BuildNotificationPacket(littleEndian, appName, password, md5, name, title, description, priority, sticky);
    }

    /**
     * `notify`: refuses a type that was not registered, then a priority
     * outside -2..2, and otherwise sends the notification packet.
     */
    method Notify(notifyType: Text, title: Text, message: Text, priority: int, sticky: bool)
      returns (r: Result<(), Error>)
      modifies this
      ensures r.Ok? <==> notifyType in allNotifies && -2 <= priority <= 2
      ensures r.Err? ==> Some(r.error) == NotifyGuard(allNotifies, notifyType, priority)
      ensures sent == if r.Ok?
        then old(sent) + [BinaryCodec.NotificationPacket(littleEndian, appName, password, md5, notifyType, title,
                                                         message, priority, sticky)]
        else old(sent)
    {
      if notifyType !in allNotifies {
        return Err(RuntimeError(UNKNOWN_NOTIFICATION));
      }
      if !(-2 <= priority <= 2) {
        return Err(RuntimeError(INVALID_PRIORITY));
      }
      var p := NotificationPacket(notifyType, title, message, priority, sticky);
      sent := sent + [p];
      return Ok(());
    }
  }
}
