// Events on the wire: what a handler reads is what the sender put in.

module Wire {
  import opened Wrappers
  import opened Text
  import opened Numerals
  import opened Codec
  import opened Message
  import E = Events

  /* ---- Senders ---- */

  function Number(e: E.Event): (id: int)
    ensures IsEvent(id)
  {
    match e
    case ReqCheck(_, _) => REQ_CHECK
    case ResCheck(_) => RES_CHECK
    case ReqGetIdle(_, _) => REQ_GET_IDLE
    case ResNotAvailable => RES_NOT_AVAILABLE
    case ResIdleSlot(_) => RES_IDLE_SLOT
    case ReqSetBundle(_, _, _) => REQ_SET_BUNDLE
    case ReqCloseByName(_) => REQ_CLOSE_BY_NAME
    case NotifyAppDied(_) => NOTIFY_APP_DIED
    case NotifyInstalled => NOTIFY_INSTALLED
    case NotifyUninstalled => NOTIFY_UNINSTALLED
    case NotifyClosed(_) => NOTIFY_CLOSED
    case NotifyCloseByName(_, _) => NOTIFY_CLOSE_BY_NAME
    case NotifyCloseByNameNotified => NOTIFY_CLOSE_BY_NAME_NOTIFIED
    case ReqCloseLastOpened => REQ_CLOSE_LAST_OPENED
    case ResCloseLastOpened(_, _) => RES_CLOSE_LAST_OPENED
    case ResNoLastOpened => RES_NO_LAST_OPENED
    case ConnectionClosed => CONNECTION_CLOSED
  }

  function Names(appname: string, activity: string): string {
    "{appname=" + appname + ",activity=" + activity + ",};"
  }

  // The data each sender formats into its local buffer; `pkgname` is read by nobody. Of the two forms
  // of NOT_AVAILABLE this is the one that answers CHECK; `UnreadDataArrives` covers the other.
  function Payload(e: E.Event, pkgname: string): string {
    match e
    case ReqCheck(appname, activity) => Truncate(Names(appname, activity), 256)
    case ReqGetIdle(appname, activity) => Truncate(Names(appname, activity), 256)
    case ResCloseLastOpened(appname, activity) => Truncate(Names(appname, activity), 256)
    case ReqSetBundle(appname, activity, id) =>
      Truncate("{appname=" + appname + ",activity=" + activity + ",lg_instance_id:" + Decimal(id) + ",};", 256)
    case ReqCloseByName(appname) => Truncate("{appname=" + appname + ",pkgname=" + pkgname + ",};", 256)
    case NotifyCloseByName(appname, id) =>
      Truncate("{appname=" + appname + ",lg_instance_id=" + Decimal(id) + ",};", 256)
    case ResIdleSlot(id) => Truncate("{lg_instance_id=" + Decimal(id) + ",};", 64)
    case NotifyAppDied(id) => Truncate("{lg_instance_id=" + Decimal(id) + ",};", 64)
    case ResCheck(id) => Truncate("{lg_instance_id=" + Decimal(id) + ";}", 64)
    case NotifyClosed(id) => Truncate("{lg_instance_id=" + Decimal(id) + ";}", 256)
    case ReqCloseLastOpened => "{lg_instance_id=;}"
    case ResNoLastOpened => "{lg_instance_id=-1;};"
    case _ => "{lg_instance_id=-1;}"
  }

  /* ---- Receivers ---- */

  // A field that is there and fits its buffer.
  function TextField(data: string, key: string, separator: string): Option<string> {
    match Field(data, key, separator)
    case Found(value) => if |value| < 512 then Some(value) else None
    case _ => None
  }

  function NumberField(data: string, separator: string): Option<int> {
    match Field(data, "lg_instance_id", separator)
    case Found(value) => if |value| < 64 then Some(Atoi(value)) else None
    case _ => None
  }

  // The event that the handlers of this number take out of the data.
  function Read(id: int, data: string): Option<E.Event> {
    if id == REQ_CHECK || id == REQ_GET_IDLE || id == RES_CLOSE_LAST_OPENED then ReadNames(id, data)
    else if id == REQ_SET_BUNDLE then ReadBundle(data)
    else if id == REQ_CLOSE_BY_NAME then
      (match TextField(data, "appname", ",")
       case Some(appname) => Some(E.ReqCloseByName(appname))
       case None => None)
    else if id == NOTIFY_CLOSE_BY_NAME then ReadClose(data)
    else if id == RES_IDLE_SLOT || id == NOTIFY_APP_DIED then ReadNumber(id, data, ",")
    else if id == RES_CHECK || id == NOTIFY_CLOSED then ReadNumber(id, data, ";")
    else ReadBare(id)
  }

  function ReadNames(id: int, data: string): Option<E.Event> {
    match (TextField(data, "appname", ","), TextField(data, "activity", ","))
    case (Some(a), Some(v)) =>
      Some(if id == REQ_CHECK then E.ReqCheck(a, v)
           else if id == REQ_GET_IDLE then E.ReqGetIdle(a, v)
           else E.ResCloseLastOpened(a, v))
    case _ => None
  }

  function ReadBundle(data: string): Option<E.Event> {
    match (TextField(data, "appname", ","), TextField(data, "activity", ","), NumberField(data, ","))
    case (Some(a), Some(v), Some(n)) => Some(E.ReqSetBundle(a, v, n))
    case _ => None
  }

  function ReadClose(data: string): Option<E.Event> {
    match (TextField(data, "appname", ","), NumberField(data, ","))
    case (Some(a), Some(n)) => Some(E.NotifyCloseByName(a, n))
    case _ => None
  }

  function ReadNumber(id: int, data: string, separator: string): Option<E.Event> {
    match NumberField(data, separator)
    case Some(n) =>
      Some(if id == RES_IDLE_SLOT then E.ResIdleSlot(n)
           else if id == NOTIFY_APP_DIED then E.NotifyAppDied(n)
           else if id == RES_CHECK then E.ResCheck(n)
           else E.NotifyClosed(n))
    case None => None
  }

  // Events whose data nobody reads.
  function ReadBare(id: int): Option<E.Event> {
    if id == RES_NOT_AVAILABLE then Some(E.ResNotAvailable)
    else if id == NOTIFY_INSTALLED then Some(E.NotifyInstalled)
    else if id == NOTIFY_UNINSTALLED then Some(E.NotifyUninstalled)
    else if id == NOTIFY_CLOSE_BY_NAME_NOTIFIED then Some(E.NotifyCloseByNameNotified)
    else if id == RES_NO_LAST_OPENED then Some(E.ResNoLastOpened)
    else if id == REQ_CLOSE_LAST_OPENED then Some(E.ReqCloseLastOpened)
    else if id == CONNECTION_CLOSED then Some(E.ConnectionClosed)
    else None
  }

  // A received text, as far as the handler that gets it.
  function Extract(text: string): Option<E.Event> {
    match Decode(text)
    case Decoded(id, Some(data)) => Read(id, data)
    case _ => None
  }

  function Receive(frame: string): Option<E.Event> { Extract(CString(frame)) }

  /* ---- Reading one field ---- */

  predicate Plain(s: string) { ',' !in s && ';' !in s && '\0' !in s }

  // `{key=value,` at the start, behind one other field, and behind two.
  lemma FirstField(key: string, x: char, value: string, c: char, rest: string)
    requires key != [] && key[0] != '{' && c !in key && c != x && c !in value
    ensures GetKeyValue("{" + (key + [x] + value + [c] + rest), key, [c]) == Found(value)
  {
    var tail := key + [x] + value + [c] + rest;
    FindHere(key, [x] + value + [c] + rest);
    assert tail == key + ([x] + value + [c] + rest);
    FindPastForeign("{", tail, key);
    ValueAt("{", key, x, value, c, rest);
  }

  lemma SecondField(a: string, v: string, key: string, x: char, value: string, rest: string)
    requires key != [] && '=' !in key && ',' !in key && !Contains(a, key) && !Contains(v, key)
    requires ',' != x && ',' !in value
    ensures GetKeyValue((a + ['='] + v + [',']) + (key + [x] + value + [','] + rest), key, ",") == Found(value)
  {
    var tail := key + [x] + value + [','] + rest;
    FindHere(key, [x] + value + [','] + rest);
    assert tail == key + ([x] + value + [','] + rest);
    FindPastTwo(a, v, '=', ',', tail, key);
    var pre := a + ['='] + v + [','];
    assert pre + tail == a + ['='] + (v + [','] + tail);
    ValueAt(pre, key, x, value, ',', rest);
  }

  lemma ThirdField(a: string, v: string, b: string, w: string, key: string, x: char, value: string, rest: string)
    requires key != [] && '=' !in key && ',' !in key
    requires !Contains(a, key) && !Contains(v, key) && !Contains(b, key) && !Contains(w, key)
    requires ',' != x && ',' !in value
    ensures var src := (a + ['='] + v + [',']) + (b + ['='] + w + [',']) + (key + [x] + value + [','] + rest);
            GetKeyValue(src, key, ",") == Found(value)
  {
    var tail := key + [x] + value + [','] + rest;
    FindHere(key, [x] + value + [','] + rest);
    assert tail == key + ([x] + value + [','] + rest);
    FindPastTwo(b, w, '=', ',', tail, key);
    var middle := b + ['='] + (w + [','] + tail);
    FindPastTwo(a, v, '=', ',', middle, key);
    var pre := (a + ['='] + v + [',']) + (b + ['='] + w + [',']);
    assert pre + tail == a + ['='] + (v + [','] + middle);
    ValueAt(pre, key, x, value, ',', rest);
  }

  const APPNAME := "appname"
  const ACTIVITY := "activity"
  const LG_INSTANCE_ID := "lg_instance_id"

  // The fields of a message, each up to and with its ','.
  function AppnameText(appname: string): string { "{appname" + ['='] + appname + [','] }
  function ActivityText(activity: string): string { ACTIVITY + ['='] + activity + [','] }
  function NumberText(x: char, number: string): string { LG_INSTANCE_ID + [x] + number + [','] }

  lemma FrontReads(key: string, value: string, rest: string)
    requires key != [] && key[0] != '{' && ',' !in key && ',' !in value
    ensures GetKeyValue(("{" + key) + ['='] + value + [','] + rest, key, ",") == Found(value)
  {
    FirstField(key, '=', value, ',', rest);
    assert ("{" + key) + ['='] + value + [','] + rest == "{" + (key + ['='] + value + [','] + rest);
  }

  lemma AppnameReads(appname: string, rest: string)
    requires ',' !in appname
    ensures GetKeyValue(AppnameText(appname) + rest, APPNAME, ",") == Found(appname)
  {
    FrontReads(APPNAME, appname, rest);
    assert "{appname" == "{" + APPNAME;
  }

  lemma ActivityReads(appname: string, activity: string, rest: string)
    requires ',' !in activity && !Contains(appname, ACTIVITY)
    ensures GetKeyValue(AppnameText(appname) + ActivityText(activity) + rest, ACTIVITY, ",") == Found(activity)
  {
    TooShortToContain("{appname", ACTIVITY);
    SecondField("{appname", appname, ACTIVITY, '=', activity, rest);
    assert AppnameText(appname) + ActivityText(activity) + rest
        == AppnameText(appname) + (ActivityText(activity) + rest);
  }

  // The bundle's slot number is written behind a ':' and read all the same.
  lemma BundleNumberReads(appname: string, activity: string, number: string, rest: string)
    requires ',' !in number && !Contains(appname, LG_INSTANCE_ID) && !Contains(activity, LG_INSTANCE_ID)
    ensures GetKeyValue(AppnameText(appname) + ActivityText(activity) + (NumberText(':', number) + rest),
                        LG_INSTANCE_ID, ",") == Found(number)
  {
    TooShortToContain("{appname", LG_INSTANCE_ID);
    TooShortToContain(ACTIVITY, LG_INSTANCE_ID);
    ThirdField("{appname", appname, ACTIVITY, activity, LG_INSTANCE_ID, ':', number, rest);
  }

  lemma CloseNumberReads(appname: string, number: string, rest: string)
    requires ',' !in number && !Contains(appname, LG_INSTANCE_ID)
    ensures GetKeyValue(AppnameText(appname) + (NumberText('=', number) + rest), LG_INSTANCE_ID, ",") == Found(number)
  {
    TooShortToContain("{appname", LG_INSTANCE_ID);
    SecondField("{appname", appname, LG_INSTANCE_ID, '=', number, rest);
  }

  /* ---- Round trips ---- */

  // The text of event `e`, and a frame that carries it.
  function TextOf(e: E.Event, pkgname: string): string {
    match Compose(512, Number(e), Payload(e, pkgname))
    case Some(text) => text
    case None => ""
  }

  predicate Carries(frame: string, e: E.Event, pkgname: string) { IsFrame(frame, TextOf(e, pkgname)) }

  // What the receiver makes of event `e`, whatever the frame held before.
  function Received(e: E.Event, pkgname: string): Option<E.Event> { Extract(TextOf(e, pkgname)) }

  lemma HeaderHasNoNul(name: Word, n: nat)
    ensures '\0' !in Header(name, n)
  {
    WordChars(name, '\0');
    assert '\0' !in Numeral(n);
  }

  lemma TextHasNoNul(id: int, data: string)
    requires IsEvent(id) && '\0' !in data
    ensures Compose(512, id, data).Some? && '\0' !in Compose(512, id, data).value
  {
    var kept := Cut(data, Room(Name(id)));
    ComposeCuts(id, data);
    ComposeFits(id, kept);
    HeaderHasNoNul(Name(id), BodyLength(Name(id), kept));
  }

  lemma FrameReceived(e: E.Event, pkgname: string, frame: string)
    requires '\0' !in Payload(e, pkgname) && Carries(frame, e, pkgname)
    ensures Receive(frame) == Received(e, pkgname)
  {
    TextHasNoNul(Number(e), Payload(e, pkgname));
    CStringOfFrame(frame, TextOf(e, pkgname));
  }

  // Data `d;tail` reaches the reader as the data `d;}` behind some header.
  lemma DataReceived(id: int, d: string, tail: string)
    requires IsEvent(id) && ';' !in d && |d| <= 400
    ensures Compose(512, id, d + ";" + tail).Some?
    ensures exists name: Word, n: nat ::
              Extract(Compose(512, id, d + ";" + tail).value) == Read(id, Header(name, n) + (d + ";}"))
  {
    DecodeComposed(id, d, tail);
    ComposeFits(id, d + ";}");
    assert Extract(Compose(512, id, d + ";" + tail).value)
        == Read(id, Header(Name(id), BodyLength(Name(id), d + ";}")) + (d + ";}"));
  }

  predicate Bare(e: E.Event) {
    || e.ResNotAvailable? || e.NotifyInstalled? || e.NotifyUninstalled? || e.NotifyCloseByNameNotified?
    || e.ResNoLastOpened? || e.ReqCloseLastOpened? || e.ConnectionClosed?
  }

  lemma BareReads(e: E.Event, data: string)
    requires Bare(e)
    ensures Read(Number(e), data) == Some(e)
  {
  }

  // Events whose data nobody reads arrive with any data.
  lemma UnreadDataArrives(e: E.Event, d: string, tail: string, frame: string)
    requires Bare(e) && ';' !in d && '\0' !in d && '\0' !in tail && |d| <= 400
    requires var text := Compose(512, Number(e), d + ";" + tail); text.Some? && IsFrame(frame, text.value)
    ensures Receive(frame) == Some(e)
  {
    DataReceived(Number(e), d, tail);
    var text := Compose(512, Number(e), d + ";" + tail).value;
    var name: Word, n: nat :| Extract(text) == Read(Number(e), Header(name, n) + (d + ";}"));
    BareReads(e, Header(name, n) + (d + ";}"));
    TextHasNoNul(Number(e), d + ";" + tail);
    CStringOfFrame(frame, text);
  }

  lemma NameFields(name: Word, n: nat, appname: string, activity: string, rest: string)
    requires Plain(appname) && Plain(activity) && !Contains(appname, ACTIVITY) && |appname| < 512 && |activity| < 512
    ensures var data := Header(name, n) + (AppnameText(appname) + ActivityText(activity) + rest);
            TextField(data, "appname", ",") == Some(appname) && TextField(data, "activity", ",") == Some(activity)
  {
    var body := AppnameText(appname) + ActivityText(activity) + rest;
    FieldBehindHeader(name, n, body, APPNAME, ',');
    AppnameReads(appname, ActivityText(activity) + rest);
    assert body == AppnameText(appname) + (ActivityText(activity) + rest);
    FieldBehindHeader(name, n, body, ACTIVITY, ',');
    ActivityReads(appname, activity, rest);
  }

  lemma DecimalIsPlain(id: int)
    requires IsInt32(id)
    ensures Plain(Decimal(id)) && |Decimal(id)| <= 11 && Atoi(Decimal(id)) == id
  {
    DecimalChars(id);
    Int32Length(id);
    AtoiOfDecimal(id);
  }

  // The fields keep clear of the delimiters, and no name holds a key that is read behind it.
  predicate Clean(e: E.Event, pkgname: string) {
    match e
    case ReqCheck(a, v) => Plain(a) && Plain(v) && !Contains(a, ACTIVITY)
    case ReqGetIdle(a, v) => Plain(a) && Plain(v) && !Contains(a, ACTIVITY)
    case ResCloseLastOpened(a, v) => Plain(a) && Plain(v) && !Contains(a, ACTIVITY)
    case ReqSetBundle(a, v, id) =>
      && Plain(a) && Plain(v) && !Contains(a, ACTIVITY) && IsInt32(id)
      && !Contains(a, LG_INSTANCE_ID) && !Contains(v, LG_INSTANCE_ID)
    case ReqCloseByName(a) => Plain(a) && Plain(pkgname)
    case NotifyCloseByName(a, id) => Plain(a) && !Contains(a, LG_INSTANCE_ID) && IsInt32(id)
    case ResCheck(id) => IsInt32(id)
    case ResIdleSlot(id) => IsInt32(id)
    case NotifyAppDied(id) => IsInt32(id)
    case NotifyClosed(id) => IsInt32(id)
    case _ => true
  }

  // The sender's buffer holds the whole payload.
  predicate Fits(e: E.Event, pkgname: string) {
    match e
    case ReqCheck(a, v) => |a| + |v| <= 233
    case ReqGetIdle(a, v) => |a| + |v| <= 233
    case ResCloseLastOpened(a, v) => |a| + |v| <= 233
    case ReqSetBundle(a, v, id) => |a| + |v| + |Decimal(id)| <= 217
    case ReqCloseByName(a) => |a| + |pkgname| <= 234
    case NotifyCloseByName(a, id) => |a| + |Decimal(id)| <= 227
    case _ => true
  }

  predicate WellFormed(e: E.Event, pkgname: string) { Clean(e, pkgname) && Fits(e, pkgname) }

  predicate NamesOnly(e: E.Event) { e.ReqCheck? || e.ReqGetIdle? || e.ResCloseLastOpened? }
  predicate CommaNumber(e: E.Event) { e.ResIdleSlot? || e.NotifyAppDied? }
  predicate SemicolonNumber(e: E.Event) { e.ResCheck? || e.NotifyClosed? }

  // What is left of a payload when its first ';' and what follows is dropped, field by field.
  function Kept(e: E.Event, pkgname: string): string {
    match e
    case ReqCheck(a, v) => AppnameText(a) + ActivityText(v) + "}"
    case ReqGetIdle(a, v) => AppnameText(a) + ActivityText(v) + "}"
    case ResCloseLastOpened(a, v) => AppnameText(a) + ActivityText(v) + "}"
    case ReqSetBundle(a, v, id) => AppnameText(a) + ActivityText(v) + (NumberText(':', Decimal(id)) + "}")
    case ReqCloseByName(a) => AppnameText(a) + ("pkgname=" + pkgname + ",}")
    case NotifyCloseByName(a, id) => AppnameText(a) + (NumberText('=', Decimal(id)) + "}")
    case ResIdleSlot(id) => "{" + (LG_INSTANCE_ID + ['='] + Decimal(id) + [','] + "}")
    case NotifyAppDied(id) => "{" + (LG_INSTANCE_ID + ['='] + Decimal(id) + [','] + "}")
    case ResCheck(id) => "{" + (LG_INSTANCE_ID + ['='] + Decimal(id))
    case NotifyClosed(id) => "{" + (LG_INSTANCE_ID + ['='] + Decimal(id))
    case ReqCloseLastOpened => "{lg_instance_id="
    case _ => "{lg_instance_id=-1"
  }

  function Dropped(e: E.Event): string {
    if e.ResNoLastOpened? then "};"
    else if NamesOnly(e) || CommaNumber(e) || e.ReqSetBundle? || e.ReqCloseByName? || e.NotifyCloseByName? then ""
    else "}"
  }

  /* The payload splits so. */

  ghost predicate Splits(e: E.Event, pkgname: string) {
    var d := Kept(e, pkgname);
    Payload(e, pkgname) == d + ";" + Dropped(e) && ';' !in d && '\0' !in d && |d| <= 300
  }

  lemma NamesText(appname: string, activity: string)
    ensures Names(appname, activity) == AppnameText(appname) + ActivityText(activity) + "}" + ";" + ""
  {
    assert "{appname=" == "{appname" + ['='] && ",activity=" == [','] + (ACTIVITY + ['=']);
  }

  lemma NamesSplit(e: E.Event, pkgname: string)
    requires NamesOnly(e) && WellFormed(e, pkgname)
    ensures Splits(e, pkgname)
  {
    NamesText(e.appname, e.activity);
  }

  lemma Regroup(p: string, a: string, q: string, v: string, r: string, n: string)
    ensures p + a + ([','] + q) + v + ([','] + r) + n + ",};"
         == (p + a + [',']) + (q + v + [',']) + ((r + n + [',']) + "}") + ";" + ""
  {
  }

  lemma BundleText(appname: string, activity: string, number: string)
    ensures "{appname=" + appname + ",activity=" + activity + ",lg_instance_id:" + number + ",};"
         == AppnameText(appname) + ActivityText(activity) + (NumberText(':', number) + "}") + ";" + ""
  {
    Regroup("{appname" + ['='], appname, ACTIVITY + ['='], activity, LG_INSTANCE_ID + [':'], number);
    assert "{appname=" == "{appname" + ['='];
    assert ",activity=" == [','] + (ACTIVITY + ['=']);
    assert ",lg_instance_id:" == [','] + (LG_INSTANCE_ID + [':']);
  }

  lemma BundleSplits(e: E.Event, pkgname: string)
    requires e.ReqSetBundle? && WellFormed(e, pkgname)
    ensures Splits(e, pkgname)
  {
    DecimalIsPlain(e.id);
    BundleText(e.appname, e.activity, Decimal(e.id));
  }

  lemma CloseRequestSplits(e: E.Event, pkgname: string)
    requires e.ReqCloseByName? && WellFormed(e, pkgname)
    ensures Splits(e, pkgname)
  {
    assert "{appname=" + e.appname + ",pkgname=" + pkgname + ",};" == Kept(e, pkgname) + ";" + "";
  }

  lemma GlobalCloseText(appname: string, number: string)
    ensures "{appname=" + appname + ",lg_instance_id=" + number + ",};"
         == AppnameText(appname) + (NumberText('=', number) + "}") + ";" + ""
  {
    assert ",lg_instance_id=" + number + ",};" == [','] + NumberText('=', number) + "};";
  }

  lemma GlobalCloseSplits(e: E.Event, pkgname: string)
    requires e.NotifyCloseByName? && WellFormed(e, pkgname)
    ensures Splits(e, pkgname)
  {
    DecimalIsPlain(e.id);
    GlobalCloseText(e.appname, Decimal(e.id));
  }

  lemma NumberTexts(number: string)
    ensures "{lg_instance_id=" + number + ",};" == "{" + (LG_INSTANCE_ID + ['='] + number + [','] + "}") + ";" + ""
    ensures "{lg_instance_id=" + number + ";}" == "{" + (LG_INSTANCE_ID + ['='] + number) + ";" + "}"
  {
    assert "{lg_instance_id=" == "{" + (LG_INSTANCE_ID + ['=']);
  }

  lemma CommaNumberSplits(e: E.Event, pkgname: string)
    requires CommaNumber(e) && WellFormed(e, pkgname)
    ensures Splits(e, pkgname)
  {
    DecimalIsPlain(e.id);
    NumberTexts(Decimal(e.id));
  }

  lemma SemicolonNumberSplits(e: E.Event, pkgname: string)
    requires SemicolonNumber(e) && WellFormed(e, pkgname)
    ensures Splits(e, pkgname)
  {
    DecimalIsPlain(e.id);
    NumberTexts(Decimal(e.id));
  }

  lemma PayloadSplits(e: E.Event, pkgname: string)
    requires WellFormed(e, pkgname)
    ensures Splits(e, pkgname)
  {
    if NamesOnly(e) {
      NamesSplit(e, pkgname);
    } else if CommaNumber(e) {
      CommaNumberSplits(e, pkgname);
    } else if SemicolonNumber(e) {
      SemicolonNumberSplits(e, pkgname);
    } else if e.ReqSetBundle? {
      BundleSplits(e, pkgname);
    } else if e.ReqCloseByName? {
      CloseRequestSplits(e, pkgname);
    } else if e.NotifyCloseByName? {
      GlobalCloseSplits(e, pkgname);
    } else {
      assert "{lg_instance_id=-1;}" == "{lg_instance_id=-1" + ";" + "}";
      assert "{lg_instance_id=;}" == "{lg_instance_id=" + ";" + "}";
      assert "{lg_instance_id=-1;};" == "{lg_instance_id=-1" + ";" + "};";
    }
  }

  /* And what is kept reads back, behind any header. */

  lemma NamesRead(e: E.Event, pkgname: string, name: Word, n: nat)
    requires NamesOnly(e) && WellFormed(e, pkgname)
    ensures ReadNames(Number(e), Header(name, n) + (Kept(e, pkgname) + ";}")) == Some(e)
  {
    NameFields(name, n, e.appname, e.activity, "};}");
    assert Kept(e, pkgname) + ";}" == AppnameText(e.appname) + ActivityText(e.activity) + "};}";
  }

  lemma BundleFields(name: Word, n: nat, appname: string, activity: string, number: string, rest: string)
    requires Plain(appname) && Plain(activity) && !Contains(appname, ACTIVITY) && |appname| < 512 && |activity| < 512
    requires !Contains(appname, LG_INSTANCE_ID) && !Contains(activity, LG_INSTANCE_ID)
    requires ',' !in number && |number| < 64
    ensures var body := AppnameText(appname) + ActivityText(activity) + (NumberText(':', number) + rest);
            ReadBundle(Header(name, n) + body) == Some(E.ReqSetBundle(appname, activity, Atoi(number)))
  {
    var more := NumberText(':', number) + rest;
    NameFields(name, n, appname, activity, more);
    FieldBehindHeader(name, n, AppnameText(appname) + ActivityText(activity) + more, LG_INSTANCE_ID, ',');
    BundleNumberReads(appname, activity, number, rest);
  }

  lemma BundleReads(e: E.Event, pkgname: string, name: Word, n: nat)
    requires e.ReqSetBundle? && WellFormed(e, pkgname)
    ensures ReadBundle(Header(name, n) + (Kept(e, pkgname) + ";}")) == Some(e)
  {
    var number := Decimal(e.id);
    DecimalIsPlain(e.id);
    BundleFields(name, n, e.appname, e.activity, number, "};}");
    BundleKept(AppnameText(e.appname) + ActivityText(e.activity), NumberText(':', number));
  }

  lemma BundleKept(names: string, number: string)
    ensures names + (number + "}") + ";}" == names + (number + "};}")
  {
  }

  lemma CloseRequestReads(e: E.Event, pkgname: string, name: Word, n: nat)
    requires e.ReqCloseByName? && WellFormed(e, pkgname)
    ensures TextField(Header(name, n) + (Kept(e, pkgname) + ";}"), "appname", ",") == Some(e.appname)
  {
    var rest := "pkgname=" + pkgname + ",};}";
    assert Kept(e, pkgname) + ";}" == AppnameText(e.appname) + rest;
    FieldBehindHeader(name, n, AppnameText(e.appname) + rest, APPNAME, ',');
    AppnameReads(e.appname, rest);
  }

  lemma CloseFields(name: Word, n: nat, appname: string, number: string, rest: string)
    requires Plain(appname) && !Contains(appname, LG_INSTANCE_ID) && |appname| < 512
    requires ',' !in number && |number| < 64
    ensures var data := Header(name, n) + (AppnameText(appname) + (NumberText('=', number) + rest));
            TextField(data, "appname", ",") == Some(appname) && NumberField(data, ",") == Some(Atoi(number))
  {
    var body := AppnameText(appname) + (NumberText('=', number) + rest);
    FieldBehindHeader(name, n, body, APPNAME, ',');
    AppnameReads(appname, NumberText('=', number) + rest);
    FieldBehindHeader(name, n, body, LG_INSTANCE_ID, ',');
    CloseNumberReads(appname, number, rest);
  }

  lemma GlobalCloseReads(e: E.Event, pkgname: string, name: Word, n: nat)
    requires e.NotifyCloseByName? && WellFormed(e, pkgname)
    ensures ReadClose(Header(name, n) + (Kept(e, pkgname) + ";}")) == Some(e)
  {
    var number := Decimal(e.id);
    DecimalIsPlain(e.id);
    CloseFields(name, n, e.appname, number, "};}");
    assert Kept(e, pkgname) + ";}" == AppnameText(e.appname) + (NumberText('=', number) + "};}");
  }

  lemma NumberFieldReads(name: Word, n: nat, id: int, c: char, rest: string)
    requires IsInt32(id) && (c == ',' || c == ';')
    ensures NumberField(Header(name, n) + ("{" + (LG_INSTANCE_ID + ['='] + Decimal(id) + [c] + rest)), [c]) == Some(id)
  {
    DecimalIsPlain(id);
    var body := "{" + (LG_INSTANCE_ID + ['='] + Decimal(id) + [c] + rest);
    FieldBehindHeader(name, n, body, LG_INSTANCE_ID, c);
    FirstField(LG_INSTANCE_ID, '=', Decimal(id), c, rest);
  }

  lemma NumberKeptText(number: string)
    ensures "{" + (number + [','] + "}") + ";}" == "{" + (number + [','] + "};}")
    ensures "{" + number + ";}" == "{" + (number + [';'] + "}")
  {
  }

  lemma NumberIsRead(e: E.Event, data: string, separator: string)
    requires (CommaNumber(e) || SemicolonNumber(e)) && NumberField(data, separator) == Some(e.id)
    ensures ReadNumber(Number(e), data, separator) == Some(e)
  {
  }

  lemma CommaNumberReads(e: E.Event, pkgname: string, name: Word, n: nat)
    requires CommaNumber(e) && WellFormed(e, pkgname)
    ensures ReadNumber(Number(e), Header(name, n) + (Kept(e, pkgname) + ";}"), ",") == Some(e)
  {
    NumberKeptText(LG_INSTANCE_ID + ['='] + Decimal(e.id));
    NumberFieldReads(name, n, e.id, ',', "};}");
    NumberIsRead(e, Header(name, n) + (Kept(e, pkgname) + ";}"), ",");
  }

  lemma SemicolonNumberReads(e: E.Event, pkgname: string, name: Word, n: nat)
    requires SemicolonNumber(e) && WellFormed(e, pkgname)
    ensures ReadNumber(Number(e), Header(name, n) + (Kept(e, pkgname) + ";}"), ";") == Some(e)
  {
    NumberKeptText(LG_INSTANCE_ID + ['='] + Decimal(e.id));
    NumberFieldReads(name, n, e.id, ';', "}");
    NumberIsRead(e, Header(name, n) + (Kept(e, pkgname) + ";}"), ";");
  }

  // Which reader the number of an event selects.
  lemma Dispatch(e: E.Event, data: string)
    ensures NamesOnly(e) ==> Read(Number(e), data) == ReadNames(Number(e), data)
    ensures CommaNumber(e) ==> Read(Number(e), data) == ReadNumber(Number(e), data, ",")
    ensures SemicolonNumber(e) ==> Read(Number(e), data) == ReadNumber(Number(e), data, ";")
    ensures e.ReqSetBundle? ==> Read(Number(e), data) == ReadBundle(data)
    ensures e.NotifyCloseByName? ==> Read(Number(e), data) == ReadClose(data)
  {
  }

  lemma TextsRead(e: E.Event, pkgname: string, name: Word, n: nat)
    requires (NamesOnly(e) || e.ReqCloseByName?) && WellFormed(e, pkgname)
    ensures Read(Number(e), Header(name, n) + (Kept(e, pkgname) + ";}")) == Some(e)
  {
    Dispatch(e, Header(name, n) + (Kept(e, pkgname) + ";}"));
    if NamesOnly(e) {
      NamesRead(e, pkgname, name, n);
    } else {
      CloseRequestReads(e, pkgname, name, n);
    }
  }

  lemma NumbersRead(e: E.Event, pkgname: string, name: Word, n: nat)
    requires (CommaNumber(e) || SemicolonNumber(e)) && WellFormed(e, pkgname)
    ensures Read(Number(e), Header(name, n) + (Kept(e, pkgname) + ";}")) == Some(e)
  {
    Dispatch(e, Header(name, n) + (Kept(e, pkgname) + ";}"));
    if CommaNumber(e) {
      CommaNumberReads(e, pkgname, name, n);
    } else {
      SemicolonNumberReads(e, pkgname, name, n);
    }
  }

  lemma MixedRead(e: E.Event, pkgname: string, name: Word, n: nat)
    requires (e.ReqSetBundle? || e.NotifyCloseByName?) && WellFormed(e, pkgname)
    ensures Read(Number(e), Header(name, n) + (Kept(e, pkgname) + ";}")) == Some(e)
  {
    Dispatch(e, Header(name, n) + (Kept(e, pkgname) + ";}"));
    if e.ReqSetBundle? {
      BundleReads(e, pkgname, name, n);
    } else {
      GlobalCloseReads(e, pkgname, name, n);
    }
  }

  lemma KeptReads(e: E.Event, pkgname: string, name: Word, n: nat)
    requires WellFormed(e, pkgname)
    ensures Read(Number(e), Header(name, n) + (Kept(e, pkgname) + ";}")) == Some(e)
  {
    if NamesOnly(e) || e.ReqCloseByName? {
      TextsRead(e, pkgname, name, n);
    } else if CommaNumber(e) || SemicolonNumber(e) {
      NumbersRead(e, pkgname, name, n);
    } else if e.ReqSetBundle? || e.NotifyCloseByName? {
      MixedRead(e, pkgname, name, n);
    }
  }

  // End to end: the handler sees the event that was sent.
  lemma ReceivedAsSent(e: E.Event, pkgname: string)
    requires WellFormed(e, pkgname)
    ensures Received(e, pkgname) == Some(e)
  {
    PayloadSplits(e, pkgname);
    DataReceived(Number(e), Kept(e, pkgname), Dropped(e));
    var name: Word, n: nat :| Received(e, pkgname) == Read(Number(e), Header(name, n) + (Kept(e, pkgname) + ";}"));
    KeptReads(e, pkgname, name, n);
  }

  // And does so over a frame filled up with anything.
  lemma RoundTrip(e: E.Event, pkgname: string, frame: string)
    requires WellFormed(e, pkgname) && Carries(frame, e, pkgname)
    ensures Receive(frame) == Some(e)
  {
    PayloadSplits(e, pkgname);
    assert '\0' !in Payload(e, pkgname);
    ReceivedAsSent(e, pkgname);
    FrameReceived(e, pkgname, frame);
  }
}
