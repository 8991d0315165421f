// What a composed message looks like and what can be read from it.

module Message {
  import opened Wrappers
  import opened Text
  import opened Numerals
  import opened Codec

  // Everything in front of the data, for an event of this name and a body of `n` characters.
  function Header(name: Word, n: nat): string {
    "EVENT_LEN:" + Numeral(n) + ";" + "EVENT_ID:" + name + ";" + "EVENT_DATA:"
  }

  function BodyLength(name: Word, data: string): nat { 21 + |name| + |data| }

  function Name(id: int): Word
    requires IsEvent(id)
  {
    EVENT_MAPS[id].name
  }

  lemma WordChars(name: Word, c: char)
    requires !('A' <= c <= 'Z') && c != '_'
    ensures c !in name
  {
  }

  lemma ShortNumeral(n: nat)
    requires n < 1000
    ensures |Numeral(n)| <= 3 && forall c :: c in Numeral(n) ==> IsDigit(c)
  {
    assert Pow10(3) == 1000 by {
      assert Pow10(1) == 10 && Pow10(2) == 100;
    }
    NumeralLength(n, 3);
  }

  // The outer message is never cut: the body takes at most 497 characters, the prefix 14.
  lemma ComposeIsWhole(id: int, data: string)
    requires IsEvent(id)
    ensures var body := Body(Name(id), data);
            && |body| <= 497
            && Compose(512, id, data) == Some("EVENT_LEN:" + Numeral(|body|) + ";" + body)
            && |Compose(512, id, data).value| <= 511
  {
    NameOfId(id);
    var body := Body(Name(id), data);
    ShortNumeral(|body|);
  }

  lemma BodyFits(name: Word, data: string)
    requires BodyLength(name, data) <= 497
    ensures |Body(name, data)| == BodyLength(name, data)
    ensures "EVENT_LEN:" + Numeral(BodyLength(name, data)) + ";" + Body(name, data)
         == Header(name, BodyLength(name, data)) + data
  {
    var n := BodyLength(name, data);
    var body := "EVENT_ID:" + name + ";EVENT_DATA:" + data;
    assert Body(name, data) == body;
    assert body == "EVENT_ID:" + name + ";" + "EVENT_DATA:" + data;
  }

  lemma ComposeFits(id: int, data: string)
    requires IsEvent(id) && BodyLength(Name(id), data) <= 497
    ensures Compose(512, id, data) == Some(Header(Name(id), BodyLength(Name(id), data)) + data)
  {
    ComposeIsWhole(id, data);
    BodyFits(Name(id), data);
  }

  // A value between its key and the next separator is what the reader gets.
  lemma ValueAt(pre: string, key: string, x: char, value: string, c: char, post: string)
    requires var src := pre + (key + [x] + value + [c] + post); Find(src, key) == Some(|pre|)
    requires c !in key && c != x && c !in value
    ensures GetKeyValue(pre + (key + [x] + value + [c] + post), key, [c]) == Found(value)
  {
    var rest := key + [x] + value + [c] + post;
    var src := pre + rest;
    assert src[|pre|..] == rest;
    FindChar(key + [x] + value, c, post);
    assert src[|pre| + |key| + 1..|pre| + |key| + 1 + |value|] == value;
  }

  // Without a separator behind the key there is no value.
  lemma ValueCut(pre: string, rest: string, key: string, c: char)
    requires Find(pre + rest, key) == Some(|pre|) && c !in rest
    ensures GetKeyValue(pre + rest, key, [c]) == Missing
  {
    assert (pre + rest)[|pre|..] == rest;
    FindNoChar(rest, c);
  }

  // The search for EVENT_ID passes the length field.
  lemma EventIdPlace(n: nat, rest: string)
    requires n < 1000
    ensures Find("EVENT_LEN:" + Numeral(n) + ";" + ("EVENT_ID" + rest), "EVENT_ID") == Some(|Numeral(n)| + 11)
  {
    var key := "EVENT_ID";
    var b := key + rest;
    ShortNumeral(n);
    FindHere(key, rest);
    LacksFirstChar(Numeral(n), key);
    FindPastPiece(Numeral(n), ';', b, key);
    var tail := Numeral(n) + [';'] + b;
    EventLenLacks();
    FindPastPiece("EVENT_LEN", ':', tail, key);
    assert "EVENT_LEN" + [':'] + tail == "EVENT_LEN:" + Numeral(n) + ";" + b;
  }

  lemma EventLenLacks()
    ensures !Contains("EVENT_LEN", "EVENT_ID")
  {
    var hay, key := "EVENT_LEN", "EVENT_ID";
    forall j: nat | j <= |hay| ensures !OccursAt(hay, key, j) {
      assert hay[6] == 'L' && hay[7] == 'E' && 'L' !in key;
      if j + |key| <= |hay| {
        ForeignCharInside(hay, key, j, 6);
      }
    }
  }

  lemma BodyShape(name: Word, data: string)
    ensures exists cut :: Body(name, data) == "EVENT_ID" + ([':'] + name + [';'] + cut)
  {
    var cut := Truncate("EVENT_DATA:" + data, 498 - 10 - |name|);
    assert "EVENT_ID:" + name + ";EVENT_DATA:" + data
        == "EVENT_ID" + ([':'] + name + [';'] + ("EVENT_DATA:" + data));
    assert Body(name, data) == "EVENT_ID" + ([':'] + name + [';'] + cut);
  }

  lemma EventIdValue(name: Word, n: nat, cut: string)
    requires n < 1000
    ensures GetKeyValue("EVENT_LEN:" + Numeral(n) + ";" + ("EVENT_ID" + ([':'] + name + [';'] + cut)), "EVENT_ID", ";")
         == Found(name)
  {
    var rest := [':'] + name + [';'] + cut;
    var pre := "EVENT_LEN:" + Numeral(n) + ";";
    EventIdPlace(n, rest);
    WordChars(name, ';');
    assert "EVENT_ID" + rest == "EVENT_ID" + [':'] + name + [';'] + cut;
    ValueAt(pre, "EVENT_ID", ':', name, ';', cut);
  }

  lemma ValueInFront(key: string, x: char, value: string, c: char, post: string)
    requires c !in key && c != x && c !in value
    ensures GetKeyValue(key + [x] + value + [c] + post, key, [c]) == Found(value)
  {
    var src := key + [x] + value + [c] + post;
    FindHere(key, [x] + value + [c] + post);
    assert src == key + ([x] + value + [c] + post);
    assert [] + src == src;
    ValueAt([], key, x, value, c, post);
  }

  lemma EventLenValue(n: nat, body: string)
    requires n < 1000
    ensures GetKeyValue("EVENT_LEN:" + Numeral(n) + ";" + body, "EVENT_LEN", ";") == Found(Numeral(n))
  {
    ShortNumeral(n);
    ValueInFront("EVENT_LEN", ':', Numeral(n), ';', body);
    assert "EVENT_LEN:" == "EVENT_LEN" + [':'];
  }

  // Whatever the data, cut or not, the event's name and the length of the body can be read back.
  lemma EventIdReads(id: int, data: string)
    requires IsEvent(id)
    ensures Compose(512, id, data).Some?
    ensures var msg := Compose(512, id, data).value;
            && GetKeyValue(msg, "EVENT_ID", ";") == Found(Name(id))
            && GetKeyValue(msg, "EVENT_LEN", ";") == Found(Numeral(|Body(Name(id), data)|))
  {
    ComposeIsWhole(id, data);
    var body := Body(Name(id), data);
    BodyShape(Name(id), data);
    var cut :| body == "EVENT_ID" + ([':'] + Name(id) + [';'] + cut);
    EventIdValue(Name(id), |body|, cut);
    EventLenValue(|body|, body);
  }

  // So composing into 512 bytes loses nothing but data: the length field states the body's true
  // length, and the name, in whatever case it is compared, leads back to the event.
  lemma EveryMessageIdentifiesItself(id: int, data: string, spelled: string)
    requires IsEvent(id) && SameSpelling(Name(id), spelled)
    ensures Compose(512, id, data).Some? && IdByName(spelled) == id
    ensures var msg := Compose(512, id, data).value;
            && |msg| <= 511
            && GetKeyValue(msg, "EVENT_ID", ";") == Found(Name(id))
            && var length := GetKeyValue(msg, "EVENT_LEN", ";");
               && length.Found? && 0 <= Atoi(length.value) <= 497
               && Atoi(length.value) == |msg| - |"EVENT_LEN:" + length.value + ";"|
  {
    ComposeIsWhole(id, data);
    EventIdReads(id, data);
    IdOfName(id, spelled);
    AtoiOfDecimal(|Body(Name(id), data)|);
  }

  // No name of an event contains "EVENT_DATA", since none has a "DA" in it.
  lemma NameLacksData(name: Word)
    ensures !Contains(name, "EVENT_DATA")
  {
    forall j: nat | j <= |name| ensures !OccursAt(name, "EVENT_DATA", j) {
      OccurrenceChars(name, "EVENT_DATA", j);
      assert "EVENT_DATA"[6] == 'D' && "EVENT_DATA"[7] == 'A';
      assert j + 7 < |name| ==> !(name[j + 6] == 'D' && name[j + 7] == 'A');
    }
  }

  // Two pieces, each with its delimiter, are passed one after the other.
  lemma FindPastTwo(p: string, q: string, c: char, d: char, tail: string, key: string)
    requires key != [] && c !in key && d !in key && !Contains(p, key) && !Contains(q, key)
    ensures Find(p + [c] + (q + [d] + tail), key) == Shift(Find(tail, key), |p| + |q| + 2)
  {
    var rest := q + [d] + tail;
    FindPastPiece(q, d, tail, key);
    FindPastPiece(p, c, rest, key);
  }

  lemma Regroup(p: string, q: string, r: string, s: string, tail: string)
    ensures (p + [':']) + q + [';'] + (r + [':']) + s + [';'] + tail
         == p + [':'] + (q + [';'] + (r + [':'] + (s + [';'] + tail)))
  {
  }

  // The header is its part before the last key, then that key.
  function Front(name: Word, n: nat): string {
    ("EVENT_LEN" + [':']) + Numeral(n) + [';'] + ("EVENT_ID" + [':']) + name + [';']
  }

  // The search for EVENT_DATA passes length, number and name.
  lemma FrontLacksData(name: Word, n: nat, tail: string)
    requires n < 1000
    ensures Find(Front(name, n) + tail, "EVENT_DATA") == Shift(Find(tail, "EVENT_DATA"), |Front(name, n)|)
  {
    NameLacksData(name);
    ShortNumeral(n);
    TooShortToContain("EVENT_ID", "EVENT_DATA");
    TooShortToContain(Numeral(n), "EVENT_DATA");
    TooShortToContain("EVENT_LEN", "EVENT_DATA");
    var rest := "EVENT_ID" + [':'] + (name + [';'] + tail);
    FindPastTwo("EVENT_ID", name, ':', ';', tail, "EVENT_DATA");
    FindPastTwo("EVENT_LEN", Numeral(n), ':', ';', rest, "EVENT_DATA");
    Regroup("EVENT_LEN", Numeral(n), "EVENT_ID", name, tail);
  }

  lemma HeaderIsFront(name: Word, n: nat)
    ensures Header(name, n) == Front(name, n) + "EVENT_DATA" + [':']
  {
    assert "EVENT_LEN" + [':'] == "EVENT_LEN:" && "EVENT_ID" + [':'] == "EVENT_ID:";
    assert "EVENT_DATA:" == "EVENT_DATA" + [':'];
  }

  lemma DataPlace(name: Word, n: nat, data: string)
    requires n < 1000
    ensures Header(name, n) + data == Front(name, n) + ("EVENT_DATA" + ([':'] + data))
    ensures Find(Front(name, n) + ("EVENT_DATA" + ([':'] + data)), "EVENT_DATA") == Some(|Front(name, n)|)
  {
    HeaderIsFront(name, n);
    FindHere("EVENT_DATA", [':'] + data);
    FrontLacksData(name, n, "EVENT_DATA" + ([':'] + data));
  }

  lemma DataReads(name: Word, n: nat, d: string, tail: string)
    requires n < 1000 && ';' !in d
    ensures GetKeyValue(Header(name, n) + (d + ";" + tail), "EVENT_DATA", ";") == Found(d)
  {
    DataPlace(name, n, d + ";" + tail);
    assert "EVENT_DATA" + ([':'] + (d + ";" + tail)) == "EVENT_DATA" + [':'] + d + [';'] + tail;
    ValueAt(Front(name, n), "EVENT_DATA", ':', d, ';', tail);
  }

  lemma DataCut(name: Word, n: nat, d: string)
    requires n < 1000 && ';' !in d
    ensures GetKeyValue(Header(name, n) + d, "EVENT_DATA", ";") == Missing
  {
    DataPlace(name, n, d);
    ValueCut(Front(name, n), "EVENT_DATA" + ([':'] + d), "EVENT_DATA", ';');
  }

  // How much data a body of this event has room for.
  function Room(name: Word): nat { 476 - |name| }

  function Cut(data: string, room: nat): string {
    if |data| <= room then data else data[..room]
  }

  // Of longer data the body keeps what it has room for.
  lemma ComposeCuts(id: int, data: string)
    requires IsEvent(id)
    ensures Compose(512, id, data) == Compose(512, id, Cut(data, Room(Name(id))))
  {
    NameOfId(id);
    var head := "EVENT_ID:" + Name(id) + ";EVENT_DATA:";
    if |data| > Room(Name(id)) {
      assert (head + data)[..497] == head + data[..Room(Name(id))];
    }
  }

  // On arrival the data up to its first ';' is wrapped again, with ";}" behind it.
  lemma DecodeComposed(id: int, d: string, tail: string)
    requires IsEvent(id) && ';' !in d && |d| < Room(Name(id))
    ensures Compose(512, id, d + ";" + tail).Some?
    ensures Decode(Compose(512, id, d + ";" + tail).value) == Decoded(id, Compose(512, id, d + ";}"))
  {
    var rest := Cut(tail, Room(Name(id)) - |d| - 1);
    var data := d + ";" + rest;
    assert Cut(d + ";" + tail, Room(Name(id))) == data;
    ComposeCuts(id, d + ";" + tail);
    ComposeFits(id, data);
    EventIdReads(id, data);
    DataReads(Name(id), BodyLength(Name(id), data), d, rest);
    IdOfName(id, Name(id));
  }

  // Data whose ';' is missing, or cut off, cannot be told from garbage.
  lemma DecodeCut(id: int, data: string)
    requires IsEvent(id) && ';' !in Cut(data, Room(Name(id)))
    ensures Compose(512, id, data).Some? && Decode(Compose(512, id, data).value) == Garbled
  {
    var d := Cut(data, Room(Name(id)));
    ComposeCuts(id, data);
    ComposeFits(id, d);
    DataCut(Name(id), BodyLength(Name(id), d), d);
  }

  /* ---- Fields of the data, as the handlers read them ---- */

  // Handlers search from the second character of the event data.
  function Field(data: string, key: string, separator: string): KeyValue {
    if data == [] then Missing else GetKeyValue(data[1..], key, separator)
  }

  // Where the search for the key passes over `a`, so does the reader.
  lemma GetShifted(a: string, b: string, key: string, c: char)
    requires Find(a + b, key) == Shift(Find(b, key), |a|)
    ensures GetKeyValue(a + b, key, [c]) == GetKeyValue(b, key, [c])
  {
    match Find(b, key) {
      case None =>
      case Some(p) =>
        assert (a + b)[|a| + p..] == b[p..];
        match Find(b[p..], [c]) {
          case None =>
          case Some(q) =>
            if q > |key| {
              assert (a + b)[|a| + p + |key| + 1..|a| + p + q] == b[p + |key| + 1..p + q];
            }
        }
    }
  }

  lemma GetBehind(a: string, b: string, key: string, c: char)
    requires key != [] && key[0] !in a
    ensures GetKeyValue(a + b, key, [c]) == GetKeyValue(b, key, [c])
  {
    FindPastForeign(a, b, key);
    GetShifted(a, b, key, c);
  }

  lemma HeaderIsForeign(name: Word, n: nat, c: char)
    requires 'a' <= c <= 'z'
    ensures c !in Header(name, n)
  {
    WordChars(name, c);
    assert c !in Numeral(n);
  }

  // A key in lower case is found in the data, never in the header.
  lemma FieldBehindHeader(name: Word, n: nat, body: string, key: string, c: char)
    requires key != [] && 'a' <= key[0] <= 'z'
    ensures Field(Header(name, n) + body, key, [c]) == GetKeyValue(body, key, [c])
  {
    var h := Header(name, n);
    HeaderIsForeign(name, n, key[0]);
    assert (h + body)[1..] == h[1..] + body;
    GetBehind(h[1..], body, key, c);
  }
}
