/**
 * `Growl::UDP`: a notifier speaking the legacy UDP protocol of Growl 1.2 and
 * older. It registers its notifications when it is created and then sends one
 * notification packet per `notify`. The socket is modelled by the list of
 * packets handed to it.
 */
module GrowlUdp {
  import opened Results
  import opened Wire
  import opened BinaryCodec

  /** What `Growl::UDP` raises. */
  datatype Error =
    | GrowlError(message: string)   // Growl::Error from `notify`
    | PackFailed(cause: PackError)   // ArgumentError from `Array#pack` while registering

  /** The UDP port Growl listens on. */
  const PORT := 9887

  const UNKNOWN_NOTIFICATION := "Unknown Notification"
  const INVALID_PRIORITY := "Invalid Priority"

  /** The error `notify` raises for a notification type and priority, if any. */
  function NotifyGuard(allNotifies: seq<Text>, notifyType: Text, priority: int): (e: Option<Error>)
    ensures e.None? <==> notifyType in allNotifies && -2 <= priority <= 2
    ensures notifyType !in allNotifies ==> e == Some(GrowlError(UNKNOWN_NOTIFICATION))
    ensures notifyType in allNotifies && !(-2 <= priority <= 2) ==> e == Some(GrowlError(INVALID_PRIORITY))
  {
    if notifyType !in allNotifies then Some(GrowlError(UNKNOWN_NOTIFICATION))
    else if !(-2 <= priority <= 2) then Some(GrowlError(INVALID_PRIORITY))
    else None
  }

  /** The defaults a notifier keeps: the given list, or every notification when none is given. */
  function DefaultsOrAll(allNotifies: seq<Text>, defaultNotifies: Option<seq<Text>>): seq<Text>
  {
    if defaultNotifies.None? then allNotifies else defaultNotifies.value
  }

  /** Leaving the defaults out turns every notification on, and that registration always packs. */
  lemma DefaultsOrAllRegistered(allNotifies: seq<Text>)
    ensures DefaultsOrAll(allNotifies, None) == allNotifies
    ensures DefaultsRegistered(allNotifies, DefaultsOrAll(allNotifies, None))
  {
  }

  class Udp {
    const appName: Text
    const allNotifies: seq<Text>
    const defaultNotifies: seq<Text>
    const password: Option<Text>
    /** `LITTLE_ENDIAN`: the byte order of the host, which decides the flag word's order. */
    const littleEndian: bool
    /** `Digest::MD5` */
    const md5: Md5
    /** The packets handed to the socket, oldest first. */
    var sent: seq<Bytes>

    /** The field assignments of `initialize`; the registration it ends with is `Create`'s. */
    constructor (appName: Text, allNotifies: seq<Text>, defaultNotifies: Option<seq<Text>>, password: Option<Text>,
                 littleEndian: bool, md5: Md5)
      ensures this.appName == appName && this.allNotifies == allNotifies && this.password == password
      ensures this.defaultNotifies == DefaultsOrAll(allNotifies, defaultNotifies)
      ensures this.littleEndian == littleEndian && this.md5 == md5
      ensures sent == []
    {
      this.appName := appName;
      this.allNotifies := allNotifies;
      this.defaultNotifies := if defaultNotifies.None? then allNotifies else defaultNotifies.value;
      this.password := password;
      this.littleEndian := littleEndian;
      this.md5 := md5;
      sent := [];
    }

    /**
     * `Growl::UDP.new`: sets the fields, then registers; a default that is not
     * one of the notifications makes the registration, and so `new`, raise.
     */
    static method Create(appName: Text, allNotifies: seq<Text>, defaultNotifies: Option<seq<Text>>,
                         password: Option<Text>, littleEndian: bool, md5: Md5)
      returns (r: Result<Udp, Error>)
      ensures var p := BinaryCodec.RegistrationPacket(appName, allNotifies, DefaultsOrAll(allNotifies, defaultNotifies),
                                                      password, md5);
        (r.Ok? <==> p.Ok?) && (r.Err? ==> r.error == PackFailed(p.error)) && (r.Ok? ==> r.value.sent == [p.value])
      ensures r.Ok? ==> fresh(r.value)
      ensures r.Ok? ==> (r.value.appName == appName && r.value.allNotifies == allNotifies
                         && r.value.defaultNotifies == DefaultsOrAll(allNotifies, defaultNotifies)
                         && r.value.password == password && r.value.littleEndian == littleEndian && r.value.md5 == md5)
    {
      var u := new Udp(appName, allNotifies, defaultNotifies, password, littleEndian, md5);
      var registered := u.Register();
      if registered.Err? {
        return Err(registered.error);
      }
      return Ok(u);
    }

    /** `register`: sends the registration packet. */
    method Register() returns (r: Result<(), Error>)
      modifies this
      ensures var p := BinaryCodec.RegistrationPacket(appName, allNotifies, defaultNotifies, password, md5);
        (r.Ok? <==> p.Ok?) && (r.Err? ==> r.error == PackFailed(p.error))
        && sent == (if p.Ok? then old(sent) + [p.value] else old(sent))
    {
      var p := RegistrationPacket();
      if p.Err? {
        return Err(PackFailed(p.error));
      }
      sent := sent + [p.value];
      return Ok(());
    }

    /** `registration_packet` */
    method RegistrationPacket() returns (r: Result<Bytes, PackError>)
      ensures r == BinaryCodec.RegistrationPacket(appName, allNotifies, defaultNotifies, password, md5)
    {
      r := BuildRegistrationPacket(appName, allNotifies, defaultNotifies, password, md5);
    }

    /** `notification_packet` */
    method NotificationPacket(name: Text, title: Text, description: Text, priority: int, sticky: bool)
      returns (p: Bytes)
      ensures p == BinaryCodec.NotificationPacket(littleEndian, appName, password, md5, name, title, description,
                                                  priority, sticky)
    {
      p := BuildNotificationPacket(littleEndian, appName, password, md5, name, title, description, priority, sticky);
    }

    /**
     * `notify`: refuses a type that was not registered, then a priority
     * outside -2..2, and otherwise sends the notification packet.
     */
    method Notify(notifyType: Text, title: Text, message: Text, priority: int, sticky: bool)
      returns (r: Result<(), Error>)
      modifies this
      ensures r.Ok? <==> notifyType in allNotifies && -2 <= priority <= 2
      ensures r.Err? ==> Some(r.error) == NotifyGuard(allNotifies, notifyType, priority)
      ensures sent == if r.Ok?
        then old(sent) + [BinaryCodec.NotificationPacket(littleEndian, appName, password, md5, notifyType, title,
                                                         message, priority, sticky)]
        else old(sent)
    {
      if notifyType !in allNotifies {
        return Err(GrowlError(UNKNOWN_NOTIFICATION));
      }
      if !(-2 <= priority <= 2) {
        return Err(GrowlError(INVALID_PRIORITY));
      }
      var p := NotificationPacket(notifyType, title, message, priority, sticky);
      sent := sent + [p];
      return Ok(());
    }
  }
}
