// The text form of events (utils.cpp) and its decoding on arrival (connmgr.cpp).

module Codec {
  import opened Wrappers
  import opened Text
  import opened Numerals

  // The enumerators of eventqueue.h, in order.
  const REQ_CHECK := 0
  const RES_CHECK := 1
  const REQ_GET_IDLE := 2
  const RES_NOT_AVAILABLE := 3
  const RES_IDLE_SLOT := 4
  const REQ_SET_BUNDLE := 5
  const REQ_CLOSE_BY_NAME := 6
  const NOTIFY_APP_DIED := 7
  const NOTIFY_INSTALLED := 8
  const NOTIFY_UNINSTALLED := 9
  const NOTIFY_CLOSED := 10
  const NOTIFY_CLOSE_BY_NAME := 11
  const NOTIFY_CLOSE_BY_NAME_NOTIFIED := 12
  const REQ_CLOSE_LAST_OPENED := 13
  const RES_CLOSE_LAST_OPENED := 14
  const RES_NO_LAST_OPENED := 15
  const CONNECTION_CLOSED := 16

  // A word of upper-case letters and underscores, without "DA" in it.
  predicate IsWord(s: string) {
    forall k :: 0 <= k < |s| ==> ('A' <= s[k] <= 'Z' || s[k] == '_') && !(k > 0 && s[k - 1] == 'D' && s[k] == 'A')
  }

  type Word = s: string | IsWord(s) && |s| <= 42 witness ""

  const REQ_CHECK_NAME: Word := "EVENT_REQ_CHECK_IF_APP_LAUNCHED"
  const RES_CHECK_NAME: Word := "EVENT_RES_CHECK_IF_APP_LAUNCHED"
  const REQ_GET_IDLE_NAME: Word := "EVENT_REQ_GET_IDLE_LG_SLOT"
  const RES_NOT_AVAILABLE_NAME: Word := "EVENT_RES_IDLE_LG_SLOT_NOT_AVAILABLE"
  const RES_IDLE_SLOT_NAME: Word := "EVENT_RES_IDEL_LG_SLOT"
  const REQ_SET_BUNDLE_NAME: Word := "EVENT_REQ_SET_LG_SLOT_APP_BUNDLE"
  const REQ_CLOSE_BY_NAME_NAME: Word := "EVENT_REQ_APP_CLOSE_BY_APPNAME"
  const NOTIFY_APP_DIED_NAME: Word := "EVENT_NOTIFY_APP_DIED"
  const NOTIFY_INSTALLED_NAME: Word := "EVENT_NOTIFY_APP_INSTALLED"
  const NOTIFY_UNINSTALLED_NAME: Word := "EVENT_NOTIFY_APP_UNINSTALLED"
  const NOTIFY_CLOSED_NAME: Word := "EVENT_NOTIFY_LG_APP_CLOSED"
  const NOTIFY_CLOSE_BY_NAME_NAME: Word := "EVENT_NOTIFY_APP_CLOSE_BY_APPNAME"
  const NOTIFY_CLOSE_BY_NAME_NOTIFIED_NAME: Word := NOTIFY_CLOSE_BY_NAME_NAME + "_NOTIFIED"
  const REQ_CLOSE_LAST_OPENED_NAME: Word := "EVENT_REQ_CLOSE_APP_LAST_OPENED"
  const RES_CLOSE_LAST_OPENED_NAME: Word := "EVENT_RES_CLOSE_APP_LAST_OPENED"
  const RES_NO_LAST_OPENED_NAME: Word := "EVENT_RES_NO_APP_LAST_OPENED"
  const CONNECTION_CLOSED_NAME: Word := "EVENT_CONNECTION_CLOSED"

  datatype EventMap = EventMap(name: Word, id: int)

  const EVENT_MAPS: seq<EventMap> := [
    EventMap(REQ_CHECK_NAME, REQ_CHECK),
    EventMap(RES_CHECK_NAME, RES_CHECK),
    EventMap(REQ_GET_IDLE_NAME, REQ_GET_IDLE),
    EventMap(RES_NOT_AVAILABLE_NAME, RES_NOT_AVAILABLE),
    EventMap(RES_IDLE_SLOT_NAME, RES_IDLE_SLOT),
    EventMap(REQ_SET_BUNDLE_NAME, REQ_SET_BUNDLE),
    EventMap(REQ_CLOSE_BY_NAME_NAME, REQ_CLOSE_BY_NAME),
    EventMap(NOTIFY_APP_DIED_NAME, NOTIFY_APP_DIED),
    EventMap(NOTIFY_INSTALLED_NAME, NOTIFY_INSTALLED),
    EventMap(NOTIFY_UNINSTALLED_NAME, NOTIFY_UNINSTALLED),
    EventMap(NOTIFY_CLOSED_NAME, NOTIFY_CLOSED),
    EventMap(NOTIFY_CLOSE_BY_NAME_NAME, NOTIFY_CLOSE_BY_NAME),
    EventMap(NOTIFY_CLOSE_BY_NAME_NOTIFIED_NAME, NOTIFY_CLOSE_BY_NAME_NOTIFIED),
    EventMap(REQ_CLOSE_LAST_OPENED_NAME, REQ_CLOSE_LAST_OPENED),
    EventMap(RES_CLOSE_LAST_OPENED_NAME, RES_CLOSE_LAST_OPENED),
    EventMap(RES_NO_LAST_OPENED_NAME, RES_NO_LAST_OPENED),
    EventMap(CONNECTION_CLOSED_NAME, CONNECTION_CLOSED)
  ]

  predicate IsEvent(id: int) { 0 <= id <= CONNECTION_CLOSED }

  /* ---- Names and numbers of events ---- */

  function ToLower(c: char): char {
    if 'A' <= c <= 'Z' then c - 'A' + 'a' else c
  }

  // `strcasecmp(s, t) == 0`
  predicate EqualNoCase(s: string, t: string) {
    |s| == |t| && forall k :: 0 <= k < |s| ==> ToLower(s[k]) == ToLower(t[k])
  }

  function NameFrom(id: int, i: nat): Option<string>
    requires i <= |EVENT_MAPS|
    decreases |EVENT_MAPS| - i
  {
    if i == |EVENT_MAPS| then None
    else if EVENT_MAPS[i].id == id then Some(EVENT_MAPS[i].name)
    else NameFrom(id, i + 1)
  }

  function NameById(id: int): Option<string> { NameFrom(id, 0) }

  function IdFrom(name: string, i: nat): int
    requires i <= |EVENT_MAPS|
    decreases |EVENT_MAPS| - i
  {
    if i == |EVENT_MAPS| then -1
    else if EqualNoCase(EVENT_MAPS[i].name, name) then EVENT_MAPS[i].id
    else IdFrom(name, i + 1)
  }

  function IdByName(name: string): int { IdFrom(name, 0) }

  method GetEventNameById(id: int) returns (name: Option<string>)
    ensures name == NameById(id)
  {
    name := None;
    var matched := -1;
    var i := 0;
    while i < |EVENT_MAPS|
      invariant 0 <= i <= |EVENT_MAPS| && matched == -1
      invariant NameById(id) == NameFrom(id, i)
    {
      if EVENT_MAPS[i].id == id {
        matched := i;
        break;
      }
      i := i + 1;
    }
    if matched >= 0 {
      name := Some(EVENT_MAPS[matched].name);
    }
  }

  method GetEventIdByName(name: string) returns (id: int)
    ensures id == IdByName(name)
  {
    id := -1;
    var i := 0;
    while i < |EVENT_MAPS|
      invariant 0 <= i <= |EVENT_MAPS| && id == -1
      invariant IdByName(name) == IdFrom(name, i)
    {
      if EqualNoCase(EVENT_MAPS[i].name, name) {
        id := EVENT_MAPS[i].id;
        break;
      }
      i := i + 1;
    }
  }

  /* ---- Writing and reading a message ---- */

  // `compose_msg_body` into a buffer of `maxLen` bytes; nothing is written for an unknown event.
  function Body(name: string, data: string): string {
    Truncate("EVENT_ID:" + name + ";EVENT_DATA:" + data, 498)
  }

  function Compose(maxLen: nat, id: int, data: string): Option<string>
    requires maxLen > 0
  {
    match NameById(id)
    case None => None
    case Some(name) =>
      var body := Body(name, data);
      Some(Truncate("EVENT_LEN:" + Numeral(|body|) + ";" + body, maxLen))
  }

  // `get_key_value`: the key may be missing, or its separator; a separator found before the place
  // where the value starts makes the copied length negative, which the source does not define.
  datatype KeyValue = Missing | Undefined | Found(value: string)

  function GetKeyValue(src: string, key: string, separator: string): KeyValue {
    match Find(src, key)
    case None => Missing
    case Some(p) =>
      var start := p + |key| + 1;
      match Find(src[p..], separator)
      case None => Missing
      case Some(q) => if p + q < start then Undefined else Found(src[start..p + q])
  }

  // `EnQueueEvt` and `EnQueueGlobalEvt`: the event's number and its data, wrapped again. A failed
  // extraction leaves the local buffers unset, a value too long for its buffer overruns it.
  datatype Decoded = Garbled | Decoded(id: int, data: Option<string>)

  function Decode(buf: string): Decoded {
    match (GetKeyValue(buf, "EVENT_ID", ";"), GetKeyValue(buf, "EVENT_DATA", ";"))
    case (Found(name), Found(body)) =>
      if |name| >= 64 || |body| >= 512 then Garbled
      else
        var id := IdByName(name);
        Decoded(id, Compose(512, id, Truncate(body + ";}", 512)))
    case _ => Garbled
  }

  /* ---- Frames ---- */

  const FRAME := 512

  // `text` and its terminator stand in front; the rest is whatever the buffer held before.
  predicate Holds(buf: string, text: string) {
    |text| < |buf| && text + ['\0'] <= buf
  }

  // A message travels as a whole buffer.
  predicate IsFrame(frame: string, text: string) { |frame| == FRAME && Holds(frame, text) }

  function CString(bytes: string): string {
    if bytes == [] || bytes[0] == '\0' then [] else [bytes[0]] + CString(bytes[1..])
  }

  lemma {:induction false} CStringOfFrame(bytes: string, text: string)
    requires text + ['\0'] <= bytes && '\0' !in text
    ensures CString(bytes) == text
  {
    if text != [] {
      assert bytes[0] == (text + ['\0'])[0] == text[0];
      assert text[1..] + ['\0'] == (text + ['\0'])[1..];
      CStringOfFrame(bytes[1..], text[1..]);
      assert text == [text[0]] + text[1..];
    } else {
      assert bytes[0] == (text + ['\0'])[0] == '\0';
    }
  }

  /* ---- Into the caller's buffers ---- */

  // Text and terminator, as `snprintf` and `strncpy` followed by an assignment leave them.
  method CopyText(dst: array<char>, text: string)
    requires |text| < dst.Length
    modifies dst
    ensures Holds(dst[..], text) && dst[|text| + 1..] == old(dst[|text| + 1..])
  {
    var i := 0;
    while i < |text|
      invariant 0 <= i <= |text|
      invariant dst[..i] == text[..i] && dst[|text| + 1..] == old(dst[|text| + 1..])
    {
      dst[i] := text[i];
      i := i + 1;
    }
    dst[i] := '\0';
    assert dst[..i + 1] == text + ['\0'];
    assert dst[..i + 1] <= dst[..];
  }

  // `compose_msg_body`
  method ComposeMsgBody(dst: array<char>, maxLen: nat, id: int, data: string) returns (ret: int)
    requires 0 < maxLen <= dst.Length
    modifies dst
    ensures ret == 0 <==> Compose(maxLen, id, data).Some?
    ensures ret == 0 ==> Holds(dst[..], Compose(maxLen, id, data).value)
    ensures ret != 0 ==> ret == -1 && dst[..] == old(dst[..])
  {
    var name := GetEventNameById(id);
    if name == None {
      return -1;
    }
    var bodyTmp := new char[498];
    var body := Truncate("EVENT_ID:" + name.value + ";EVENT_DATA:" + data, bodyTmp.Length);
    CopyText(bodyTmp, body);
    // The body has just been cut to its buffer, so the source's test for a longer one never succeeds.
    CopyText(dst, Truncate("EVENT_LEN:" + Numeral(|body|) + ";" + body, maxLen));
    ret := 0;
  }

  // `get_key_value`; its callers must see to it that the value is defined and fits.
  method GetKeyValueInto(src: string, key: string, buf: array<char>, separator: string) returns (ret: int)
    requires var kv := GetKeyValue(src, key, separator); kv != Undefined && (kv.Found? ==> |kv.value| < buf.Length)
    modifies buf
    ensures ret == 0 <==> GetKeyValue(src, key, separator).Found?
    ensures ret == 0 ==> Holds(buf[..], GetKeyValue(src, key, separator).value)
    ensures ret != 0 ==> ret == -1 && buf[..] == old(buf[..])
  {
    var keyAt := Find(src, key);
    if keyAt == None {
      return -1;
    }
    var start := keyAt.value + |key| + 1;
    var end := Find(src[keyAt.value..], separator);
    if end == None {
      return -1;
    }
    CopyText(buf, src[start..keyAt.value + end.value]);
    ret := 0;
  }

  // `EnQueueEvt`, up to handing the object to the queue: the event's number and data, re-encoded.
  method ReEncode(message: string, eventData: array<char>) returns (eventType: int)
    requires eventData.Length == FRAME && Decode(message).Decoded?
    modifies eventData
    ensures eventType == Decode(message).id
    ensures Decode(message).data.Some? ==> Holds(eventData[..], Decode(message).data.value)
    ensures Decode(message).data == None ==> eventData[..] == old(eventData[..])
  {
    var name := GetKeyValue(message, "EVENT_ID", ";").value;
    var body := GetKeyValue(message, "EVENT_DATA", ";").value;
    eventType := GetEventIdByName(name);
    var ret := ComposeMsgBody(eventData, eventData.Length, eventType, Truncate(body + ";}", 512));
  }

  /* ---- The table of events ---- */

  // Three marks that tell any two names apart.
  function Marks(s: string): (nat, char, char) {
    if |s| < 21 then (|s|, ' ', ' ') else (|s|, s[8], s[13])
  }

  function MarksOf(id: int): (nat, char, char)
    requires IsEvent(id)
  {
    match id
    case 0 => (31, 'Q', 'C')
    case 1 => (31, 'S', 'C')
    case 2 => (26, 'Q', '_')
    case 3 => (36, 'S', 'E')
    case 4 => (22, 'S', 'L')
    case 5 => (32, 'Q', '_')
    case 6 => (30, 'Q', '_')
    case 7 => (21, 'T', 'A')
    case 8 => (26, 'T', 'A')
    case 9 => (28, 'T', 'A')
    case 10 => (26, 'T', 'L')
    case 11 => (33, 'T', 'A')
    case 12 => (42, 'T', 'A')
    case 13 => (31, 'Q', 'S')
    case 14 => (31, 'S', 'S')
    case 15 => (28, 'S', 'A')
    case 16 => (23, 'N', 'I')
  }

  lemma EqualWords(s: Word, t: Word, name: string)
    requires EqualNoCase(s, name) && EqualNoCase(t, name)
    ensures s == t
  {
    forall k | 0 <= k < |s| ensures s[k] == t[k] {
      assert ToLower(s[k]) == ToLower(t[k]);
    }
  }

  lemma RequestMarks()
    ensures Marks(REQ_CHECK_NAME) == MarksOf(REQ_CHECK)
         && Marks(RES_CHECK_NAME) == MarksOf(RES_CHECK)
         && Marks(REQ_GET_IDLE_NAME) == MarksOf(REQ_GET_IDLE)
         && Marks(RES_NOT_AVAILABLE_NAME) == MarksOf(RES_NOT_AVAILABLE)
         && Marks(RES_IDLE_SLOT_NAME) == MarksOf(RES_IDLE_SLOT)
         && Marks(REQ_SET_BUNDLE_NAME) == MarksOf(REQ_SET_BUNDLE)
         && Marks(REQ_CLOSE_BY_NAME_NAME) == MarksOf(REQ_CLOSE_BY_NAME)
  {
  }

  lemma NotificationMarks()
    ensures Marks(NOTIFY_APP_DIED_NAME) == MarksOf(NOTIFY_APP_DIED)
         && Marks(NOTIFY_INSTALLED_NAME) == MarksOf(NOTIFY_INSTALLED)
         && Marks(NOTIFY_UNINSTALLED_NAME) == MarksOf(NOTIFY_UNINSTALLED)
         && Marks(NOTIFY_CLOSED_NAME) == MarksOf(NOTIFY_CLOSED)
         && Marks(NOTIFY_CLOSE_BY_NAME_NAME) == MarksOf(NOTIFY_CLOSE_BY_NAME)
         && Marks(NOTIFY_CLOSE_BY_NAME_NOTIFIED_NAME) == MarksOf(NOTIFY_CLOSE_BY_NAME_NOTIFIED)
  {
  }

  lemma LastMarks()
    ensures Marks(REQ_CLOSE_LAST_OPENED_NAME) == MarksOf(REQ_CLOSE_LAST_OPENED)
         && Marks(RES_CLOSE_LAST_OPENED_NAME) == MarksOf(RES_CLOSE_LAST_OPENED)
         && Marks(RES_NO_LAST_OPENED_NAME) == MarksOf(RES_NO_LAST_OPENED)
         && Marks(CONNECTION_CLOSED_NAME) == MarksOf(CONNECTION_CLOSED)
  {
  }

  lemma RequestNameMarks(id: int)
    requires 0 <= id < 7
    ensures EVENT_MAPS[id].id == id && Marks(EVENT_MAPS[id].name) == MarksOf(id)
  {
    RequestMarks();
  }

  lemma NotificationNameMarks(id: int)
    requires 7 <= id < 13
    ensures EVENT_MAPS[id].id == id && Marks(EVENT_MAPS[id].name) == MarksOf(id)
  {
    NotificationMarks();
  }

  lemma LastNameMarks(id: int)
    requires 13 <= id <= CONNECTION_CLOSED
    ensures EVENT_MAPS[id].id == id && Marks(EVENT_MAPS[id].name) == MarksOf(id)
  {
    LastMarks();
  }

  lemma NameMarks(id: int)
    requires IsEvent(id)
    ensures EVENT_MAPS[id].id == id && Marks(EVENT_MAPS[id].name) == MarksOf(id)
  {
    if id < 7 {
      RequestNameMarks(id);
    } else if id < 13 {
      NotificationNameMarks(id);
    } else {
      LastNameMarks(id);
    }
  }

  lemma MarksDiffer(i: int, j: int)
    requires IsEvent(i) && IsEvent(j) && MarksOf(i) == MarksOf(j)
    ensures i == j
  {
  }

  // `strcasecmp` finds equal what differs in the case of ASCII letters only.
  lemma EqualExactly(s: string, t: string)
    ensures EqualNoCase(s, t) <==> SameSpelling(s, t)
  {
    if |s| == |t| {
      forall k | 0 <= k < |s| ensures ToLower(s[k]) == ToLower(t[k]) <==> SameLetter(s[k], t[k]) {
      }
    }
  }

  // The number of an event is found under its name in any mixture of cases, and under no other name.
  lemma IdOfName(id: int, name: string)
    requires IsEvent(id)
    ensures IdByName(name) == id <==> SameSpelling(EVENT_MAPS[id].name, name)
  {
    EqualExactly(EVENT_MAPS[id].name, name);
    if EqualNoCase(EVENT_MAPS[id].name, name) {
      IdOfNameFrom(id, name, 0);
    } else {
      FoundIsNamed(name, 0);
      NameMarks(id);
    }
  }

  // A number that is found stands beside an equal name.
  lemma {:induction false} FoundIsNamed(name: string, i: nat)
    requires i <= |EVENT_MAPS|
    ensures var id := IdFrom(name, i);
            id == -1 || (IsEvent(id) && EqualNoCase(EVENT_MAPS[id].name, name))
    decreases |EVENT_MAPS| - i
  {
    if i < |EVENT_MAPS| {
      NameMarks(i);
      FoundIsNamed(name, i + 1);
    }
  }

  lemma {:induction false} IdOfNameFrom(id: int, name: string, i: nat)
    requires IsEvent(id) && EqualNoCase(EVENT_MAPS[id].name, name) && i <= id
    ensures IdFrom(name, i) == id
    decreases id - i
  {
    NameMarks(i);
    if EqualNoCase(EVENT_MAPS[i].name, name) {
      EqualWords(EVENT_MAPS[i].name, EVENT_MAPS[id].name, name);
      NameMarks(id);
      MarksDiffer(i, id);
    } else {
      IdOfNameFrom(id, name, i + 1);
    }
  }

  lemma {:induction false} NameOfIdFrom(id: int, i: nat)
    requires IsEvent(id) && i <= id
    ensures NameFrom(id, i) == Some(EVENT_MAPS[id].name)
    decreases id - i
  {
    NameMarks(i);
    if i < id {
      NameOfIdFrom(id, i + 1);
    }
  }

  lemma {:induction false} NoNameFrom(id: int, i: nat)
    requires !IsEvent(id) && i <= |EVENT_MAPS|
    ensures NameFrom(id, i) == None
    decreases |EVENT_MAPS| - i
  {
    if i < |EVENT_MAPS| {
      NameMarks(i);
      NoNameFrom(id, i + 1);
    }
  }

  // Events, and nothing else, have their own names.
  lemma NameOfId(id: int)
    ensures NameById(id) == if IsEvent(id) then Some(EVENT_MAPS[id].name) else None
  {
    if IsEvent(id) {
      NameOfIdFrom(id, 0);
    } else {
      NoNameFrom(id, 0);
    }
  }
}
