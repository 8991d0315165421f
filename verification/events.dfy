// The events of eventqueue.h with the fields their handlers read.
// A slot number travels as the integer that `atoi` yields on the receiving side.

module Events {
  datatype Event =
    | ReqCheck(appname: string, activity: string)
    | ResCheck(id: int)
    | ReqGetIdle(appname: string, activity: string)
    | ResNotAvailable
    | ResIdleSlot(id: int)
    | ReqSetBundle(appname: string, activity: string, id: int)
    | ReqCloseByName(appname: string)
    | NotifyAppDied(id: int)
    | NotifyInstalled
    | NotifyUninstalled
    | NotifyClosed(id: int)
    | NotifyCloseByName(appname: string, id: int)
    | NotifyCloseByNameNotified
    | ReqCloseLastOpened
    | ResCloseLastOpened(appname: string, activity: string)
    | ResNoLastOpened
    | ConnectionClosed

  // `event_type`
  function Kind(e: Event): nat {
    match e
    case ReqCheck(_, _) => 0
    case ResCheck(_) => 1
    case ReqGetIdle(_, _) => 2
    case ResNotAvailable => 3
    case ResIdleSlot(_) => 4
    case ReqSetBundle(_, _, _) => 5
    case ReqCloseByName(_) => 6
    case NotifyAppDied(_) => 7
    case NotifyInstalled => 8
    case NotifyUninstalled => 9
    case NotifyClosed(_) => 10
    case NotifyCloseByName(_, _) => 11
    case NotifyCloseByNameNotified => 12
    case ReqCloseLastOpened => 13
    case ResCloseLastOpened(_, _) => 14
    case ResNoLastOpened => 15
    case ConnectionClosed => 16
  }
}
