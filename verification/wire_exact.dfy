// What a receiver makes of arbitrary names, and exactly which messages with names arrive as they
// were sent. Every condition is one the sender could test beforehand.

module WireExact {
  import opened Wrappers
  import opened Text
  import opened Numerals
  import opened Codec
  import opened Message
  import opened Wire
  import E = Events

  /* ---- Keys inside names ---- */

  // What is read behind a key that stands inside `value`: all that follows it and one more
  // character, if there is one.
  function InnerValue(value: string, k: nat, key: string): KeyValue {
    if k + |key| < |value| then Found(value[k + |key| + 1..]) else Undefined
  }

  lemma FindInside(a: string, b: string, needle: string)
    requires Find(a, needle).Some?
    ensures Find(a + b, needle) == Find(a, needle)
  {
    var r := Find(a, needle);
    FindIsFound(a, needle);
    forall j: nat | j <= r.value ensures OccursAt(a + b, needle, j) <==> OccursAt(a, needle, j) {
      OccursInside(a, b, needle, j);
    }
    FoundOnce(a + b, needle, r);
  }

  lemma InnerPlace(front: string, value: string, key: string, rest: string)
    requires key != [] && '=' !in key && !Contains(front, key) && Find(value, key).Some?
    ensures Find(front + ['='] + (value + rest), key) == Some(|front| + 1 + Find(value, key).value)
  {
    FindInside(value, rest, key);
    FindPastPiece(front, '=', value + rest, key);
  }

  // A key that occurs in the value of an earlier field is found there ...
  lemma KeyInside(front: string, value: string, key: string, rest: string)
    requires key != [] && '=' !in key && ',' !in value && !Contains(front, key) && Find(value, key).Some?
    ensures GetKeyValue(front + ['='] + value + [','] + rest, key, ",")
         == InnerValue(value, Find(value, key).value, key)
  {
    var k := Find(value, key).value;
    var src := front + ['='] + (value + ([','] + rest));
    InnerPlace(front, value, key, [','] + rest);
    var p := |front| + 1 + k;
    assert src[p..] == value[k..] + [','] + rest;
    FindChar(value[k..], ',', rest);
    if k + |key| < |value| {
      assert src[p + |key| + 1..|front| + 1 + |value|] == value[k + |key| + 1..];
    }
    assert front + ['='] + value + [','] + rest == src;
  }

  // ... and one that does not is read behind that field.
  lemma KeyBeyond(front: string, value: string, key: string, rest: string)
    requires key != [] && '=' !in key && ',' !in key && !Contains(front, key) && Find(value, key) == None
    ensures GetKeyValue(front + ['='] + value + [','] + rest, key, ",") == GetKeyValue(rest, key, ",")
  {
    FindIsFound(value, key);
    var piece := front + ['='] + value + [','];
    FindPastTwo(front, value, '=', ',', rest, key);
    assert front + ['='] + (value + [','] + rest) == piece + rest;
    GetShifted(piece, rest, key, ',');
  }

  // The activity that is read when both names are sent.
  function ActivityOf(appname: string, activity: string): KeyValue {
    match Find(appname, ACTIVITY)
    case Some(k) => InnerValue(appname, k, ACTIVITY)
    case None => Found(activity)
  }

  // The slot number that is read behind one name, and behind two.
  function NumberOf(name: string, number: string): KeyValue {
    match Find(name, LG_INSTANCE_ID)
    case Some(k) => InnerValue(name, k, LG_INSTANCE_ID)
    case None => Found(number)
  }

  function BundleNumberOf(appname: string, activity: string, number: string): KeyValue {
    match Find(appname, LG_INSTANCE_ID)
    case Some(k) => InnerValue(appname, k, LG_INSTANCE_ID)
    case None => NumberOf(activity, number)
  }

  lemma ActivityValue(appname: string, activity: string, rest: string)
    requires ',' !in appname && ',' !in activity
    ensures GetKeyValue(AppnameText(appname) + (ActivityText(activity) + rest), ACTIVITY, ",")
         == ActivityOf(appname, activity)
  {
    TooShortToContain("{appname", ACTIVITY);
    var behind := ActivityText(activity) + rest;
    if Find(appname, ACTIVITY).Some? {
      KeyInside("{appname", appname, ACTIVITY, behind);
    } else {
      KeyBeyond("{appname", appname, ACTIVITY, behind);
      ValueInFront(ACTIVITY, '=', activity, ',', rest);
    }
  }

  lemma CloseNumberValue(appname: string, number: string, rest: string)
    requires ',' !in appname && ',' !in number
    ensures GetKeyValue(AppnameText(appname) + (NumberText('=', number) + rest), LG_INSTANCE_ID, ",")
         == NumberOf(appname, number)
  {
    TooShortToContain("{appname", LG_INSTANCE_ID);
    var behind := NumberText('=', number) + rest;
    if Find(appname, LG_INSTANCE_ID).Some? {
      KeyInside("{appname", appname, LG_INSTANCE_ID, behind);
    } else {
      KeyBeyond("{appname", appname, LG_INSTANCE_ID, behind);
      ValueInFront(LG_INSTANCE_ID, '=', number, ',', rest);
    }
  }

  lemma SecondNumberValue(activity: string, number: string, rest: string)
    requires ',' !in activity && ',' !in number
    ensures GetKeyValue(ActivityText(activity) + (NumberText(':', number) + rest), LG_INSTANCE_ID, ",")
         == NumberOf(activity, number)
  {
    TooShortToContain(ACTIVITY, LG_INSTANCE_ID);
    var behind := NumberText(':', number) + rest;
    if Find(activity, LG_INSTANCE_ID).Some? {
      KeyInside(ACTIVITY, activity, LG_INSTANCE_ID, behind);
    } else {
      KeyBeyond(ACTIVITY, activity, LG_INSTANCE_ID, behind);
      ValueInFront(LG_INSTANCE_ID, ':', number, ',', rest);
    }
  }

  lemma BundleNumberValue(appname: string, activity: string, number: string, rest: string)
    requires ',' !in appname && ',' !in activity && ',' !in number
    ensures GetKeyValue(AppnameText(appname) + (ActivityText(activity) + (NumberText(':', number) + rest)),
                        LG_INSTANCE_ID, ",") == BundleNumberOf(appname, activity, number)
  {
    TooShortToContain("{appname", LG_INSTANCE_ID);
    var behind := ActivityText(activity) + (NumberText(':', number) + rest);
    if Find(appname, LG_INSTANCE_ID).Some? {
      KeyInside("{appname", appname, LG_INSTANCE_ID, behind);
    } else {
      KeyBeyond("{appname", appname, LG_INSTANCE_ID, behind);
      SecondNumberValue(activity, number, rest);
    }
  }

  /* ---- Reading what stands before the first ';' ---- */

  predicate Free(s: string) { ',' !in s && ';' !in s }

  lemma CharOccurs(s: string, c: char, m: nat)
    requires m < |s|
    ensures s[m] == c ==> OccursAt(s, [c], m)
  {
    assert s[m..m + 1] == [s[m]];
  }

  // A found value lacks its separator, and the separator follows it.
  lemma FoundEndsAtSeparator(src: string, key: string, c: char, value: string)
    requires GetKeyValue(src, key, [c]) == Found(value)
    ensures c !in value
    ensures exists i: nat, j: nat :: i <= j < |src| && src[i..j] == value && src[j] == c
  {
    var p := Find(src, key).value;
    var q := Find(src[p..], [c]).value;
    FindIsFound(src[p..], [c]);
    var start := p + |key| + 1;
    OccurrenceChars(src[p..], [c], q);
    assert [c][0] == c;
    assert src[p..][q] == src[p + q];
    forall m | start <= m < p + q ensures src[m] != c {
      assert src[p..][m - p] == src[m];
      CharOccurs(src[p..], c, m - p);
    }
    assert src[start..p + q] == value && src[p + q] == c;
  }

  // So a value read from `d;}` lies within `d`.
  lemma FoundInKept(d: string, key: string, value: string)
    requires ';' !in d && GetKeyValue(d + ";}", key, ",") == Found(value)
    ensures Free(value)
  {
    FoundEndsAtSeparator(d + ";}", key, ',', value);
    var i: nat, j: nat :| i <= j < |d + ";}"| && (d + ";}")[i..j] == value && (d + ";}")[j] == ',';
    assert (d + ";}")[|d|] == ';' && (d + ";}")[|d| + 1] == '}';
    assert j < |d|;
    assert value == d[i..j];
  }

  lemma FieldIsFree(name: Word, n: nat, d: string, key: string, value: string)
    requires ';' !in d && key != [] && 'a' <= key[0] <= 'z'
    requires Field(Header(name, n) + (d + ";}"), key, ",") == Found(value)
    ensures Free(value)
  {
    FieldBehindHeader(name, n, d + ";}", key, ',');
    FoundInKept(d, key, value);
  }

  function FirstSemicolon(s: string): (m: nat)
    requires ';' in s
    ensures m < |s| && s[m] == ';' && ';' !in s[..m]
  {
    if s[0] == ';' then 0
    else
      assert s == [s[0]] + s[1..];
      var m := FirstSemicolon(s[1..]);
      assert s[..m + 1] == [s[0]] + s[1..][..m];
      m + 1
  }

  lemma SplitAtSemicolon(s: string)
    requires ';' in s
    ensures var m := FirstSemicolon(s); s == s[..m] + ";" + s[m + 1..]
  {
  }

  // Data without a ';' never arrives.
  lemma NoSemicolonIsLost(e: E.Event, pkgname: string)
    requires ';' !in Payload(e, pkgname)
    ensures Received(e, pkgname) == None
  {
    DecodeCut(Number(e), Payload(e, pkgname));
  }

  // Anything that arrives was read from what stands before the first ';'.
  lemma ReadFromKept(e: E.Event, pkgname: string)
    requires Received(e, pkgname).Some? && |Payload(e, pkgname)| <= 255
    ensures ';' in Payload(e, pkgname)
    ensures var d := Payload(e, pkgname)[..FirstSemicolon(Payload(e, pkgname))];
            exists name: Word, n: nat :: Received(e, pkgname) == Read(Number(e), Header(name, n) + (d + ";}"))
  {
    var payload := Payload(e, pkgname);
    if ';' !in payload {
      NoSemicolonIsLost(e, pkgname);
    } else {
      var m := FirstSemicolon(payload);
      SplitAtSemicolon(payload);
      DataReceived(Number(e), payload[..m], payload[m + 1..]);
    }
  }

  // A text too long for the sender's buffer loses its only ';', which is its last character.
  lemma TooLongIsLost(e: E.Event, pkgname: string, d: string)
    requires Payload(e, pkgname) == Truncate(d + ";", 256) && ';' !in d && |d| > 254
    ensures Received(e, pkgname) == None
  {
    assert (d + ";")[..255] == d[..255];
    NoSemicolonIsLost(e, pkgname);
  }

  lemma PayloadSize(e: E.Event, pkgname: string)
    requires NamesOnly(e) || e.ReqSetBundle? || e.NotifyCloseByName? || e.ReqCloseByName?
    ensures |Payload(e, pkgname)| <= 255
  {
  }

  /* ---- Both names: CHECK, GET_IDLE and the answer for the application opened last ---- */

  predicate NamesArrivable(appname: string, activity: string) {
    && Free(appname) && Free(activity) && |appname| + |activity| <= 233
    && ActivityOf(appname, activity) == Found(activity)
  }

  function NamesResult(e: E.Event): Option<E.Event>
    requires NamesOnly(e)
  {
    match ActivityOf(e.appname, e.activity)
    case Found(activity) => Some(e.(activity := activity))
    case _ => None
  }

  lemma NamesFromFields(e: E.Event, data: string, activity: KeyValue)
    requires NamesOnly(e) && |e.appname| < 512 && (activity.Found? ==> |activity.value| < 512)
    requires Field(data, "appname", ",") == Found(e.appname) && Field(data, "activity", ",") == activity
    ensures ReadNames(Number(e), data) == if activity.Found? then Some(e.(activity := activity.value)) else None
  {
  }

  lemma NamesFields(appname: string, activity: string, rest: string, name: Word, n: nat)
    requires ',' !in appname && ',' !in activity
    ensures var data := Header(name, n) + (AppnameText(appname) + (ActivityText(activity) + rest));
            && Field(data, "appname", ",") == Found(appname)
            && Field(data, "activity", ",") == ActivityOf(appname, activity)
  {
    var body := AppnameText(appname) + (ActivityText(activity) + rest);
    FieldBehindHeader(name, n, body, APPNAME, ',');
    AppnameReads(appname, ActivityText(activity) + rest);
    FieldBehindHeader(name, n, body, ACTIVITY, ',');
    ActivityValue(appname, activity, rest);
  }

  lemma NamesReads(e: E.Event, body: string, name: Word, n: nat)
    requires NamesOnly(e) && Free(e.appname) && Free(e.activity) && |e.appname| + |e.activity| <= 233
    requires body == AppnameText(e.appname) + (ActivityText(e.activity) + "};}")
    ensures Read(Number(e), Header(name, n) + body) == NamesResult(e)
  {
    NamesFields(e.appname, e.activity, "};}", name, n);
    NamesFromFields(e, Header(name, n) + body, ActivityOf(e.appname, e.activity));
    Dispatch(e, Header(name, n) + body);
  }

  lemma NamesKept(appname: string, activity: string)
    ensures AppnameText(appname) + ActivityText(activity) + "}" + ";}"
         == AppnameText(appname) + (ActivityText(activity) + "};}")
  {
  }

  // Names without delimiters are received up to the activity that is found.
  lemma NamesReceived(e: E.Event, pkgname: string)
    requires NamesOnly(e) && Free(e.appname) && Free(e.activity) && |e.appname| + |e.activity| <= 233
    ensures Received(e, pkgname) == NamesResult(e)
  {
    var d := AppnameText(e.appname) + ActivityText(e.activity) + "}";
    NamesText(e.appname, e.activity);
    assert ';' !in d && Payload(e, pkgname) == d + ";" + "";
    DataReceived(Number(e), d, "");
    var name: Word, n: nat :| Received(e, pkgname) == Read(Number(e), Header(name, n) + (d + ";}"));
    NamesKept(e.appname, e.activity);
    NamesReads(e, d + ";}", name, n);
  }

  lemma NamesReadFree(e: E.Event, d: string, name: Word, n: nat)
    requires NamesOnly(e) && ';' !in d && Read(Number(e), Header(name, n) + (d + ";}")) == Some(e)
    ensures Free(e.appname) && Free(e.activity)
  {
    Dispatch(e, Header(name, n) + (d + ";}"));
    FieldIsFree(name, n, d, APPNAME, e.appname);
    FieldIsFree(name, n, d, ACTIVITY, e.activity);
  }

  lemma NamesTooLong(e: E.Event, pkgname: string)
    requires NamesOnly(e) && Free(e.appname) && Free(e.activity) && |e.appname| + |e.activity| > 233
    ensures Received(e, pkgname) == None
  {
    var d := AppnameText(e.appname) + ActivityText(e.activity) + "}";
    NamesText(e.appname, e.activity);
    assert d + ";" + "" == d + ";";
    TooLongIsLost(e, pkgname, d);
  }

  lemma NamesReceivedFree(e: E.Event, pkgname: string)
    requires NamesOnly(e) && Received(e, pkgname) == Some(e)
    ensures Free(e.appname) && Free(e.activity)
  {
    PayloadSize(e, pkgname);
    ReadFromKept(e, pkgname);
    var d := Payload(e, pkgname)[..FirstSemicolon(Payload(e, pkgname))];
    var name: Word, n: nat :| Received(e, pkgname) == Read(Number(e), Header(name, n) + (d + ";}"));
    NamesReadFree(e, d, name, n);
  }

  lemma NamesReceivedExactly(e: E.Event, pkgname: string)
    requires NamesOnly(e)
    ensures Received(e, pkgname) == Some(e) <==> NamesArrivable(e.appname, e.activity)
  {
    if Received(e, pkgname) == Some(e) {
      NamesReceivedFree(e, pkgname);
      if |e.appname| + |e.activity| > 233 {
        NamesTooLong(e, pkgname);
      }
    }
    if Free(e.appname) && Free(e.activity) && |e.appname| + |e.activity| <= 233 {
      NamesReceived(e, pkgname);
    }
  }

  /* ---- SET_BUNDLE ---- */

  predicate ReadsNumber(kv: KeyValue, id: int) { kv.Found? && |kv.value| < 64 && Atoi(kv.value) == id }

  predicate BundleArrivable(appname: string, activity: string, id: int) {
    && Free(appname) && Free(activity) && |appname| + |activity| + |Decimal(id)| <= 217
    && ActivityOf(appname, activity) == Found(activity)
    && ReadsNumber(BundleNumberOf(appname, activity, Decimal(id)), id)
  }

  function BundleResult(appname: string, activity: string, id: int): Option<E.Event> {
    match (ActivityOf(appname, activity), BundleNumberOf(appname, activity, Decimal(id)))
    case (Found(read), Found(number)) =>
      if |number| < 64 then Some(E.ReqSetBundle(appname, read, Atoi(number))) else None
    case _ => None
  }

  lemma BundleFromFields(data: string, appname: string, activity: KeyValue, number: KeyValue)
    requires Field(data, "appname", ",") == Found(appname) && |appname| < 512
    requires Field(data, "activity", ",") == activity && (activity.Found? ==> |activity.value| < 512)
    requires Field(data, "lg_instance_id", ",") == number
    ensures ReadBundle(data)
         == if activity.Found? && number.Found? && |number.value| < 64
            then Some(E.ReqSetBundle(appname, activity.value, Atoi(number.value))) else None
  {
  }

  lemma BundleFieldsExactly(appname: string, activity: string, number: string, rest: string, name: Word, n: nat)
    requires ',' !in appname && ',' !in activity && ',' !in number
    ensures var body := AppnameText(appname) + (ActivityText(activity) + (NumberText(':', number) + rest));
            var data := Header(name, n) + body;
            && Field(data, "appname", ",") == Found(appname)
            && Field(data, "activity", ",") == ActivityOf(appname, activity)
            && Field(data, "lg_instance_id", ",") == BundleNumberOf(appname, activity, number)
  {
    var behind := NumberText(':', number) + rest;
    NamesFields(appname, activity, behind, name, n);
    FieldBehindHeader(name, n, AppnameText(appname) + (ActivityText(activity) + behind), LG_INSTANCE_ID, ',');
    BundleNumberValue(appname, activity, number, rest);
  }

  lemma ActivityIsShort(appname: string, activity: string)
    ensures ActivityOf(appname, activity).Found? ==> |ActivityOf(appname, activity).value| <= |appname| + |activity|
  {
  }

  lemma BundleReadsExactly(appname: string, activity: string, id: int, body: string, name: Word, n: nat)
    requires Free(appname) && Free(activity) && Free(Decimal(id)) && |appname| + |activity| <= 217
    requires body == AppnameText(appname) + (ActivityText(activity) + (NumberText(':', Decimal(id)) + "};}"))
    ensures ReadBundle(Header(name, n) + body) == BundleResult(appname, activity, id)
  {
    BundleFieldsExactly(appname, activity, Decimal(id), "};}", name, n);
    ActivityIsShort(appname, activity);
    BundleFromFields(Header(name, n) + body, appname, ActivityOf(appname, activity),
                     BundleNumberOf(appname, activity, Decimal(id)));
  }

  lemma BundleKeptText(p: string, q: string, r: string)
    ensures (p + q + (r + "}")) + ";}" == p + (q + (r + "};}"))
  {
  }

  function BundleKeptData(appname: string, activity: string, id: int): string {
    AppnameText(appname) + ActivityText(activity) + (NumberText(':', Decimal(id)) + "}")
  }

  lemma BundleDataFree(appname: string, activity: string, id: int)
    requires Free(appname) && Free(activity) && IsInt32(id)
    ensures ';' !in BundleKeptData(appname, activity, id)
    ensures |BundleKeptData(appname, activity, id)| == 37 + |appname| + |activity| + |Decimal(id)|
  {
    DecimalIsPlain(id);
    FieldTextsFree(appname, activity, Decimal(id));
  }

  lemma FieldTextsFree(appname: string, activity: string, number: string)
    requires ';' !in appname && ';' !in activity && ';' !in number
    ensures ';' !in AppnameText(appname) && |AppnameText(appname)| == 10 + |appname|
    ensures ';' !in ActivityText(activity) && |ActivityText(activity)| == 10 + |activity|
    ensures ';' !in NumberText(':', number) && |NumberText(':', number)| == 16 + |number|
  {
  }

  // What a session receives of a bundle whose names lack delimiters: not always the number sent.
  lemma BundleReceived(e: E.Event, pkgname: string)
    requires e.ReqSetBundle? && IsInt32(e.id) && Free(e.appname) && Free(e.activity)
    requires |e.appname| + |e.activity| + |Decimal(e.id)| <= 217
    ensures Received(e, pkgname) == BundleResult(e.appname, e.activity, e.id)
  {
    var d := BundleKeptData(e.appname, e.activity, e.id);
    BundleDataFree(e.appname, e.activity, e.id);
    BundleText(e.appname, e.activity, Decimal(e.id));
    assert Payload(e, pkgname) == d + ";" + "";
    DataReceived(Number(e), d, "");
    var name: Word, n: nat :| Received(e, pkgname) == Read(Number(e), Header(name, n) + (d + ";}"));
    Dispatch(e, Header(name, n) + (d + ";}"));
    DecimalIsPlain(e.id);
    BundleKeptText(AppnameText(e.appname), ActivityText(e.activity), NumberText(':', Decimal(e.id)));
    BundleReadsExactly(e.appname, e.activity, e.id, d + ";}", name, n);
  }

  lemma BundleReadFree(e: E.Event, d: string, name: Word, n: nat)
    requires e.ReqSetBundle? && ';' !in d && Read(Number(e), Header(name, n) + (d + ";}")) == Some(e)
    ensures Free(e.appname) && Free(e.activity)
  {
    Dispatch(e, Header(name, n) + (d + ";}"));
    FieldIsFree(name, n, d, APPNAME, e.appname);
    FieldIsFree(name, n, d, ACTIVITY, e.activity);
  }

  lemma BundleTooLong(e: E.Event, pkgname: string)
    requires e.ReqSetBundle? && IsInt32(e.id) && Free(e.appname) && Free(e.activity)
    requires |e.appname| + |e.activity| + |Decimal(e.id)| > 217
    ensures Received(e, pkgname) == None
  {
    var d := BundleKeptData(e.appname, e.activity, e.id);
    BundleDataFree(e.appname, e.activity, e.id);
    BundleText(e.appname, e.activity, Decimal(e.id));
    assert d + ";" + "" == d + ";";
    TooLongIsLost(e, pkgname, d);
  }

  lemma BundleReceivedExactly(e: E.Event, pkgname: string)
    requires e.ReqSetBundle? && IsInt32(e.id)
    ensures Received(e, pkgname) == Some(e) <==> BundleArrivable(e.appname, e.activity, e.id)
  {
    if Received(e, pkgname) == Some(e) {
      PayloadSize(e, pkgname);
      ReadFromKept(e, pkgname);
      var d := Payload(e, pkgname)[..FirstSemicolon(Payload(e, pkgname))];
      var name: Word, n: nat :| Received(e, pkgname) == Read(Number(e), Header(name, n) + (d + ";}"));
      BundleReadFree(e, d, name, n);
      if |e.appname| + |e.activity| + |Decimal(e.id)| > 217 {
        BundleTooLong(e, pkgname);
      }
    }
    if Free(e.appname) && Free(e.activity) && |e.appname| + |e.activity| + |Decimal(e.id)| <= 217 {
      BundleReceived(e, pkgname);
    }
  }

  /* ---- The global close ---- */

  predicate CloseArrivable(appname: string, id: int) {
    && Free(appname) && |appname| + |Decimal(id)| <= 227
    && ReadsNumber(NumberOf(appname, Decimal(id)), id)
  }

  function CloseResult(appname: string, id: int): Option<E.Event> {
    match NumberOf(appname, Decimal(id))
    case Found(number) => if |number| < 64 then Some(E.NotifyCloseByName(appname, Atoi(number))) else None
    case _ => None
  }

  lemma CloseFromFields(data: string, appname: string, number: KeyValue)
    requires Field(data, "appname", ",") == Found(appname) && |appname| < 512
    requires Field(data, "lg_instance_id", ",") == number
    ensures ReadClose(data)
         == if number.Found? && |number.value| < 64
            then Some(E.NotifyCloseByName(appname, Atoi(number.value))) else None
  {
  }

  lemma CloseReads(appname: string, id: int, body: string, name: Word, n: nat)
    requires Free(appname) && IsInt32(id) && |appname| <= 227
    requires body == AppnameText(appname) + (NumberText('=', Decimal(id)) + "};}")
    ensures ReadClose(Header(name, n) + body) == CloseResult(appname, id)
  {
    DecimalIsPlain(id);
    FieldBehindHeader(name, n, body, APPNAME, ',');
    AppnameReads(appname, NumberText('=', Decimal(id)) + "};}");
    FieldBehindHeader(name, n, body, LG_INSTANCE_ID, ',');
    CloseNumberValue(appname, Decimal(id), "};}");
    CloseFromFields(Header(name, n) + body, appname, NumberOf(appname, Decimal(id)));
  }

  function CloseKeptData(appname: string, id: int): string {
    AppnameText(appname) + (NumberText('=', Decimal(id)) + "}")
  }

  lemma CloseDataFree(appname: string, id: int)
    requires Free(appname) && IsInt32(id)
    ensures ';' !in CloseKeptData(appname, id) && |CloseKeptData(appname, id)| == 27 + |appname| + |Decimal(id)|
    ensures CloseKeptData(appname, id) + ";}" == AppnameText(appname) + (NumberText('=', Decimal(id)) + "};}")
  {
    DecimalIsPlain(id);
  }

  // What the daemon makes of a global close: not always the slot that was found.
  lemma CloseReceived(e: E.Event, pkgname: string)
    requires e.NotifyCloseByName? && IsInt32(e.id) && Free(e.appname) && |e.appname| + |Decimal(e.id)| <= 227
    ensures Received(e, pkgname) == CloseResult(e.appname, e.id)
  {
    var d := CloseKeptData(e.appname, e.id);
    CloseDataFree(e.appname, e.id);
    GlobalCloseText(e.appname, Decimal(e.id));
    assert Payload(e, pkgname) == d + ";" + "";
    DataReceived(Number(e), d, "");
    var name: Word, n: nat :| Received(e, pkgname) == Read(Number(e), Header(name, n) + (d + ";}"));
    Dispatch(e, Header(name, n) + (d + ";}"));
    CloseReads(e.appname, e.id, d + ";}", name, n);
  }

  lemma CloseReadFree(e: E.Event, d: string, name: Word, n: nat)
    requires e.NotifyCloseByName? && ';' !in d && Read(Number(e), Header(name, n) + (d + ";}")) == Some(e)
    ensures Free(e.appname)
  {
    Dispatch(e, Header(name, n) + (d + ";}"));
    FieldIsFree(name, n, d, APPNAME, e.appname);
  }

  lemma CloseTooLong(e: E.Event, pkgname: string)
    requires e.NotifyCloseByName? && IsInt32(e.id) && Free(e.appname) && |e.appname| + |Decimal(e.id)| > 227
    ensures Received(e, pkgname) == None
  {
    var d := CloseKeptData(e.appname, e.id);
    CloseDataFree(e.appname, e.id);
    GlobalCloseText(e.appname, Decimal(e.id));
    assert d + ";" + "" == d + ";";
    TooLongIsLost(e, pkgname, d);
  }

  lemma CloseReceivedExactly(e: E.Event, pkgname: string)
    requires e.NotifyCloseByName? && IsInt32(e.id)
    ensures Received(e, pkgname) == Some(e) <==> CloseArrivable(e.appname, e.id)
  {
    if Received(e, pkgname) == Some(e) {
      PayloadSize(e, pkgname);
      ReadFromKept(e, pkgname);
      var d := Payload(e, pkgname)[..FirstSemicolon(Payload(e, pkgname))];
      var name: Word, n: nat :| Received(e, pkgname) == Read(Number(e), Header(name, n) + (d + ";}"));
      CloseReadFree(e, d, name, n);
      if |e.appname| + |Decimal(e.id)| > 227 {
        CloseTooLong(e, pkgname);
      }
    }
    if Free(e.appname) && |e.appname| + |Decimal(e.id)| <= 227 {
      CloseReceived(e, pkgname);
    }
  }

  /* ---- The request to close ---- */

  // The package name is read by nobody, but a ';' must be left behind the application name.
  predicate RequestArrivable(appname: string, pkgname: string) {
    Free(appname) && ';' in Payload(E.ReqCloseByName(appname), pkgname)
  }

  function RequestFront(appname: string): string { AppnameText(appname) + "pkgname=" }

  lemma RequestText(appname: string, pkgname: string)
    ensures "{appname=" + appname + ",pkgname=" + pkgname + ",};" == RequestFront(appname) + (pkgname + ",};")
  {
  }

  // The first ';' stands behind the front, so what is kept begins with it.
  lemma FrontIsKept(front: string, rest: string, size: nat)
    requires size > 0 && ';' !in front && ';' in Truncate(front + rest, size)
    ensures var payload := Truncate(front + rest, size); front <= payload[..FirstSemicolon(payload)]
  {
    var payload := Truncate(front + rest, size);
    var m := FirstSemicolon(payload);
    assert payload[m] == (front + rest)[m];
    assert m >= |front|;
    assert payload[..m] == (front + rest)[..m];
    assert (front + rest)[..|front|] == front;
  }

  lemma RequestReads(appname: string, d: string, name: Word, n: nat)
    requires Free(appname) && RequestFront(appname) <= d && |appname| < 512
    ensures TextField(Header(name, n) + (d + ";}"), "appname", ",") == Some(appname)
  {
    var rest := "pkgname=" + d[|RequestFront(appname)|..] + ";}";
    assert d == RequestFront(appname) + d[|RequestFront(appname)|..];
    assert d + ";}" == AppnameText(appname) + rest;
    FieldBehindHeader(name, n, d + ";}", APPNAME, ',');
    AppnameReads(appname, rest);
  }

  lemma RequestReceived(e: E.Event, pkgname: string)
    requires e.ReqCloseByName? && RequestArrivable(e.appname, pkgname)
    ensures Received(e, pkgname) == Some(e)
  {
    var payload := Payload(e, pkgname);
    var m := FirstSemicolon(payload);
    RequestText(e.appname, pkgname);
    FrontIsKept(RequestFront(e.appname), pkgname + ",};", 256);
    SplitAtSemicolon(payload);
    PayloadSize(e, pkgname);
    DataReceived(Number(e), payload[..m], payload[m + 1..]);
    var name: Word, n: nat :| Received(e, pkgname) == Read(Number(e), Header(name, n) + (payload[..m] + ";}"));
    RequestReads(e.appname, payload[..m], name, n);
    RequestDispatch(e, Header(name, n) + (payload[..m] + ";}"));
  }

  lemma RequestDispatch(e: E.Event, data: string)
    requires e.ReqCloseByName?
    ensures Read(Number(e), data) == match TextField(data, "appname", ",")
                                     case Some(appname) => Some(E.ReqCloseByName(appname))
                                     case None => None
  {
  }

  lemma RequestReadFree(e: E.Event, d: string, name: Word, n: nat)
    requires e.ReqCloseByName? && ';' !in d && Read(Number(e), Header(name, n) + (d + ";}")) == Some(e)
    ensures Free(e.appname)
  {
    RequestDispatch(e, Header(name, n) + (d + ";}"));
    FieldIsFree(name, n, d, APPNAME, e.appname);
  }

  lemma RequestReceivedExactly(e: E.Event, pkgname: string)
    requires e.ReqCloseByName?
    ensures Received(e, pkgname) == Some(e) <==> RequestArrivable(e.appname, pkgname)
  {
    if Received(e, pkgname) == Some(e) {
      PayloadSize(e, pkgname);
      ReadFromKept(e, pkgname);
      var d := Payload(e, pkgname)[..FirstSemicolon(Payload(e, pkgname))];
      var name: Word, n: nat :| Received(e, pkgname) == Read(Number(e), Header(name, n) + (d + ";}"));
      RequestReadFree(e, d, name, n);
    }
    if RequestArrivable(e.appname, pkgname) {
      RequestReceived(e, pkgname);
    }
  }

  /* ---- All events ---- */

  // Whether an event with arbitrary names arrives as it was sent.
  predicate Arrivable(e: E.Event, pkgname: string) {
    match e
    case ReqCheck(appname, activity) => NamesArrivable(appname, activity)
    case ReqGetIdle(appname, activity) => NamesArrivable(appname, activity)
    case ResCloseLastOpened(appname, activity) => NamesArrivable(appname, activity)
    case ReqSetBundle(appname, activity, id) => BundleArrivable(appname, activity, id)
    case ReqCloseByName(appname) => RequestArrivable(appname, pkgname)
    case NotifyCloseByName(appname, id) => CloseArrivable(appname, id)
    case _ => true
  }

  predicate Int32Fields(e: E.Event) {
    match e
    case ReqSetBundle(_, _, id) => IsInt32(id)
    case NotifyCloseByName(_, id) => IsInt32(id)
    case ResCheck(id) => IsInt32(id)
    case ResIdleSlot(id) => IsInt32(id)
    case NotifyAppDied(id) => IsInt32(id)
    case NotifyClosed(id) => IsInt32(id)
    case _ => true
  }

  lemma ReceivedExactly(e: E.Event, pkgname: string)
    requires Int32Fields(e)
    ensures Received(e, pkgname) == Some(e) <==> Arrivable(e, pkgname)
  {
    if NamesOnly(e) {
      NamesReceivedExactly(e, pkgname);
    } else if e.ReqSetBundle? {
      BundleReceivedExactly(e, pkgname);
    } else if e.ReqCloseByName? {
      RequestReceivedExactly(e, pkgname);
    } else if e.NotifyCloseByName? {
      CloseReceivedExactly(e, pkgname);
    } else {
      ReceivedAsSent(e, pkgname);
    }
  }

  // Names are C strings.
  predicate CStrings(e: E.Event, pkgname: string) {
    match e
    case ReqCheck(appname, activity) => '\0' !in appname && '\0' !in activity
    case ReqGetIdle(appname, activity) => '\0' !in appname && '\0' !in activity
    case ResCloseLastOpened(appname, activity) => '\0' !in appname && '\0' !in activity
    case ReqSetBundle(appname, activity, id) => '\0' !in appname && '\0' !in activity
    case ReqCloseByName(appname) => '\0' !in appname && '\0' !in pkgname
    case NotifyCloseByName(appname, id) => '\0' !in appname
    case _ => true
  }

  lemma NumberHasNoNul(e: E.Event, pkgname: string)
    requires (CommaNumber(e) || SemicolonNumber(e)) && IsInt32(e.id)
    ensures '\0' !in Payload(e, pkgname)
  {
    DecimalIsPlain(e.id);
  }

  lemma BundleHasNoNul(e: E.Event, pkgname: string)
    requires e.ReqSetBundle? && CStrings(e, pkgname) && IsInt32(e.id)
    ensures '\0' !in Payload(e, pkgname)
  {
    DecimalIsPlain(e.id);
    BundleText(e.appname, e.activity, Decimal(e.id));
  }

  lemma CloseHasNoNul(e: E.Event, pkgname: string)
    requires e.NotifyCloseByName? && CStrings(e, pkgname) && IsInt32(e.id)
    ensures '\0' !in Payload(e, pkgname)
  {
    DecimalIsPlain(e.id);
    GlobalCloseText(e.appname, Decimal(e.id));
  }

  lemma PayloadHasNoNul(e: E.Event, pkgname: string)
    requires CStrings(e, pkgname) && Int32Fields(e)
    ensures '\0' !in Payload(e, pkgname)
  {
    if CommaNumber(e) || SemicolonNumber(e) {
      NumberHasNoNul(e, pkgname);
    } else if e.ReqSetBundle? {
      BundleHasNoNul(e, pkgname);
    } else if e.NotifyCloseByName? {
      CloseHasNoNul(e, pkgname);
    }
  }

  // An event reaches its handler as it was sent if and only if it is arrivable.
  lemma ArrivesExactly(e: E.Event, pkgname: string, frame: string)
    requires Int32Fields(e) && CStrings(e, pkgname) && Carries(frame, e, pkgname)
    ensures Receive(frame) == Some(e) <==> Arrivable(e, pkgname)
  {
    PayloadHasNoNul(e, pkgname);
    FrameReceived(e, pkgname, frame);
    ReceivedExactly(e, pkgname);
  }

  lemma RequestTooLong(e: E.Event, pkgname: string)
    requires e.ReqCloseByName? && Plain(e.appname) && Plain(pkgname) && |e.appname| + |pkgname| > 234
    ensures Received(e, pkgname) == None
  {
    var d := RequestFront(e.appname) + (pkgname + ",}");
    RequestText(e.appname, pkgname);
    assert RequestFront(e.appname) + (pkgname + ",};") == d + ";";
    TooLongIsLost(e, pkgname, d);
  }

  // Clean fields that fit the sender's buffer arrive; with one character too many nothing does.
  lemma ArrivesIffFits(e: E.Event, pkgname: string, frame: string)
    requires Clean(e, pkgname) && Carries(frame, e, pkgname)
    ensures Receive(frame) == (if Fits(e, pkgname) then Some(e) else None)
  {
    PayloadHasNoNul(e, pkgname);
    FrameReceived(e, pkgname, frame);
    if Fits(e, pkgname) {
      ReceivedAsSent(e, pkgname);
    } else if NamesOnly(e) {
      NamesTooLong(e, pkgname);
    } else if e.ReqSetBundle? {
      BundleTooLong(e, pkgname);
    } else if e.ReqCloseByName? {
      RequestTooLong(e, pkgname);
    } else {
      CloseTooLong(e, pkgname);
    }
  }

  /* ---- The type of a message ---- */

  lemma TextReadKeepsNumber(id: int, data: string)
    requires id == REQ_CHECK || id == REQ_GET_IDLE || id == RES_CLOSE_LAST_OPENED
    ensures ReadNames(id, data).Some? ==> Number(ReadNames(id, data).value) == id
  {
  }

  lemma NumberReadKeepsNumber(id: int, data: string, separator: string)
    requires id == RES_IDLE_SLOT || id == NOTIFY_APP_DIED || id == RES_CHECK || id == NOTIFY_CLOSED
    ensures ReadNumber(id, data, separator).Some? ==> Number(ReadNumber(id, data, separator).value) == id
  {
  }

  lemma BareReadKeepsNumber(id: int)
    ensures ReadBare(id).Some? ==> Number(ReadBare(id).value) == id
  {
  }

  lemma MixedReadKeepsNumber(data: string)
    ensures ReadBundle(data).Some? ==> Number(ReadBundle(data).value) == REQ_SET_BUNDLE
    ensures ReadClose(data).Some? ==> Number(ReadClose(data).value) == NOTIFY_CLOSE_BY_NAME
  {
  }

  lemma ReadKeepsNumber(id: int, data: string)
    requires IsEvent(id)
    ensures Read(id, data).Some? ==> Number(Read(id, data).value) == id
  {
    if id == REQ_CHECK || id == REQ_GET_IDLE || id == RES_CLOSE_LAST_OPENED {
      TextReadKeepsNumber(id, data);
    } else if id == RES_IDLE_SLOT || id == NOTIFY_APP_DIED {
      NumberReadKeepsNumber(id, data, ",");
    } else if id == RES_CHECK || id == NOTIFY_CLOSED {
      NumberReadKeepsNumber(id, data, ";");
    } else if id == REQ_SET_BUNDLE || id == NOTIFY_CLOSE_BY_NAME {
      MixedReadKeepsNumber(data);
    } else {
      BareReadKeepsNumber(id);
    }
  }

  // Data with a ';' that the body has room for is extracted, other data is not.
  lemma ComposedIsExtracted(id: int, data: string)
    requires IsEvent(id)
    ensures Compose(512, id, data).Some?
    ensures var text := Compose(512, id, data).value;
            Extract(text) == None || exists kept :: Extract(text) == Read(id, kept)
  {
    var kept := Cut(data, Room(Name(id)));
    if ';' in kept {
      var m := FirstSemicolon(kept);
      CutAtSemicolon(data, Room(Name(id)), m);
      DecodeComposed(id, data[..m], data[m + 1..]);
    } else {
      DecodeCut(id, data);
    }
  }

  lemma CutAtSemicolon(data: string, room: nat, m: nat)
    requires m < |Cut(data, room)| && Cut(data, room)[m] == ';' && ';' !in Cut(data, room)[..m]
    ensures m < |data| && m < room && ';' !in data[..m] && data == data[..m] + ";" + data[m + 1..]
  {
    assert data[..m] == Cut(data, room)[..m];
  }

  // Whatever its names, a message that can be read is read as one of its own type.
  lemma TypeIsKept(e: E.Event, pkgname: string)
    ensures Received(e, pkgname).Some? ==> Number(Received(e, pkgname).value) == Number(e)
  {
    ComposedIsExtracted(Number(e), Payload(e, pkgname));
    if Received(e, pkgname).Some? {
      var kept :| Received(e, pkgname) == Read(Number(e), kept);
      ReadKeepsNumber(Number(e), kept);
    }
  }

  /* ---- Inputs that fail ---- */

  lemma KeyInFront(key: string, x: char, value: string)
    requires key != []
    ensures Find(key + [x] + value, key) == Some(0)
    ensures InnerValue(key + [x] + value, 0, key) == Found(value)
  {
    FindHere(key, [x] + value);
    assert key + [x] + value == key + ([x] + value);
    assert (key + [x] + value)[|key| + 1..] == value;
  }

  // An application called "activity" never arrives: the handler meets the end of the value before
  // its start.
  lemma ActivityAsAppname(e: E.Event, pkgname: string)
    requires NamesOnly(e) && e.appname == "activity"
    ensures Received(e, pkgname) != Some(e)
  {
    FindHere(ACTIVITY, "");
    assert ACTIVITY + "" == "activity";
    NamesReceivedExactly(e, pkgname);
  }

  // An activity that looks like a slot number, and the number read for it.
  function Posing(k: int): string { LG_INSTANCE_ID + [':'] + Decimal(k) }

  lemma PosingNumber(k: int)
    requires IsInt32(k)
    ensures Find(Posing(k), LG_INSTANCE_ID) == Some(0) && NumberOf(Posing(k), "") == Found(Decimal(k))
    ensures Free(Posing(k)) && '\0' !in Posing(k) && |Posing(k)| <= 26 && Atoi(Decimal(k)) == k
  {
    KeyInFront(LG_INSTANCE_ID, ':', Decimal(k));
    DecimalIsPlain(k);
  }

  // A short application name that holds neither key.
  predicate Harmless(appname: string) {
    Plain(appname) && !Contains(appname, ACTIVITY) && !Contains(appname, LG_INSTANCE_ID) && |appname| <= 100
  }

  // A launcher granted slot `g` announces its application for slot `k`, even one below the table.
  lemma BundleMisread(appname: string, g: int, k: int)
    requires Harmless(appname) && IsInt32(g) && IsInt32(k)
    ensures Received(E.ReqSetBundle(appname, Posing(k), g), "") == Some(E.ReqSetBundle(appname, Posing(k), k))
  {
    PosingNumber(k);
    DecimalIsPlain(g);
    DecimalIsPlain(k);
    FindIsFound(appname, ACTIVITY);
    FindIsFound(appname, LG_INSTANCE_ID);
    BundleReceived(E.ReqSetBundle(appname, Posing(k), g), "");
  }

  // A request to close an application that nobody runs asks for slot `k` instead.
  lemma CloseMisread(id: int, k: int)
    requires IsInt32(id) && IsInt32(k)
    ensures Received(E.NotifyCloseByName(Posing(k), id), "") == Some(E.NotifyCloseByName(Posing(k), k))
  {
    PosingNumber(k);
    DecimalIsPlain(id);
    DecimalIsPlain(k);
    CloseReceived(E.NotifyCloseByName(Posing(k), id), "");
  }
}
