// Whole messages over partial transfers (connsock.cpp) and the reader's loop (connmgr.cpp).

module Framing {
  const MESSAGE := 512

  // One end of a connected socket. How many bytes a call moves, and whether it fails, is left open.
  class Socket {
    var incoming: seq<char>  // sent by the peer, not yet received here
    var outgoing: seq<char>  // sent from here

    constructor (incoming: seq<char>)
      ensures this.incoming == incoming && outgoing == []
    {
      this.incoming, outgoing := incoming, [];
    }

    // `recv`: some bytes, 0 once the peer has closed and nothing is left, or an error.
    method Recv(max: nat) returns (count: int, chunk: seq<char>)
      requires max > 0
      modifies this`incoming
      ensures count <= max
      ensures count > 0 ==> count == |chunk| <= |old(incoming)|
                            && chunk == old(incoming)[..count] && incoming == old(incoming)[count..]
      ensures count <= 0 ==> incoming == old(incoming)
      ensures count == 0 ==> incoming == []
    {
      var k: int := *;
      if k < 0 {
        return -1, [];
      }
      if incoming == [] {
        return 0, [];
      }
      count := if 0 < k <= max && k <= |incoming| then k else 1;
      chunk := incoming[..count];
      incoming := incoming[count..];
    }

    // `send` of at least one byte either moves at least one or fails.
    method Send(bytes: seq<char>) returns (count: int)
      requires bytes != []
      modifies this`outgoing
      ensures count <= |bytes| && count != 0
      ensures count > 0 ==> outgoing == old(outgoing) + bytes[..count]
      ensures count < 0 ==> outgoing == old(outgoing)
    {
      var k: int := *;
      if k < 0 {
        return -1;
      }
      count := if 0 < k <= |bytes| then k else 1;
      outgoing := outgoing + bytes[..count];
    }
  }

  class ConnSock {
    const sock: Socket
    var connReady: bool

    constructor (sock: Socket)
      ensures this.sock == sock && connReady
    {
      this.sock, connReady := sock, true;
    }

    // Either the whole length arrives, being exactly the next bytes of the stream, or the result is
    // not positive; 0 is returned only when the stream has ended.
    method Read(buf: array<char>, length: nat) returns (counts: int, ghost taken: nat)
      requires 0 < length <= buf.Length
      modifies this`connReady, sock`incoming, buf
      ensures taken <= length && taken <= |old(sock.incoming)|
      ensures buf[..taken] == old(sock.incoming)[..taken] && sock.incoming == old(sock.incoming)[taken..]
      ensures counts > 0 ==> counts == length == taken && connReady == old(connReady)
      ensures counts <= 0 ==> taken < length && (counts == 0 || counts == -1)
      ensures counts == 0 ==> sock.incoming == [] && !connReady
    {
      counts, taken := 0, 0;
      while counts < length
        invariant taken == counts <= length && taken <= |old(sock.incoming)|
        invariant buf[..taken] == old(sock.incoming)[..taken]
        invariant sock.incoming == old(sock.incoming)[taken..]
        invariant connReady == old(connReady)
      {
        var count, chunk := sock.Recv(length - counts);
        if count > 0 {
          ghost var before := buf[..counts];
          forall k | 0 <= k < count {
            buf[counts + k] := chunk[k];
          }
          assert buf[..counts + count] == before + chunk;
          counts := counts + count;
          taken := counts;
        } else if count == 0 {
          connReady := false;
          return 0, taken;
        } else {
          var wouldBlock: bool := *;
          if !wouldBlock {
            connReady := false;
          }
          return -1, taken;
        }
      }
    }

    // Either the whole message is sent, or a part of it short of the whole and the result is -1.
    method Write(msg: seq<char>, length: nat) returns (counts: int)
      requires length <= |msg|
      modifies this`connReady, sock`outgoing
      ensures counts == length || counts == -1
      ensures counts == length ==> sock.outgoing == old(sock.outgoing) + msg[..length] && connReady == old(connReady)
      ensures counts == -1 ==>
                !connReady && exists k :: 0 <= k < length && sock.outgoing == old(sock.outgoing) + msg[..k]
    {
      var done := 0;
      while done < length
        invariant 0 <= done <= length
        invariant sock.outgoing == old(sock.outgoing) + msg[..done]
        invariant connReady == old(connReady)
      {
        var count := sock.Send(msg[done..length]);
        if count >= 0 {
          assert msg[..done] + msg[done..length][..count] == msg[..done + count];
          done := done + count;
        } else {
          connReady := false;
          return -1;
        }
      }
      counts := length;
    }
  }

  /* ---- Streams of messages ---- */

  predicate Whole(messages: seq<seq<char>>) {
    forall k :: 0 <= k < |messages| ==> |messages[k]| == MESSAGE
  }

  function Stream(messages: seq<seq<char>>): seq<char> {
    if messages == [] then [] else messages[0] + Stream(messages[1..])
  }

  lemma {:induction false} StreamAppend(messages: seq<seq<char>>, last: seq<char>)
    ensures Stream(messages + [last]) == Stream(messages) + last
  {
    if messages == [] {
      assert ([] + [last])[1..] == [];
      assert Stream([last]) == last + Stream([last][1..]);
    } else {
      assert (messages + [last])[1..] == messages[1..] + [last];
      StreamAppend(messages[1..], last);
    }
  }

  lemma {:induction false} StreamLength(messages: seq<seq<char>>)
    requires Whole(messages)
    ensures |Stream(messages)| == MESSAGE * |messages|
  {
    if messages != [] {
      StreamLength(messages[1..]);
    }
  }

  // A stream of whole messages can be cut up in one way only.
  lemma {:induction false} StreamSplitsOnce(got: seq<seq<char>>, rest: seq<char>, sent: seq<seq<char>>)
    requires Whole(got) && Whole(sent) && Stream(got) + rest == Stream(sent)
    ensures |got| <= |sent| && got == sent[..|got|] && rest == Stream(sent[|got|..])
  {
    if got == [] {
      assert rest == Stream(sent);
    } else {
      StreamLength(got);
      StreamLength(sent);
      assert sent != [];
      var tail := Stream(got[1..]) + rest;
      assert Stream(got) + rest == got[0] + tail;
      assert (got[0] + tail)[..MESSAGE] == got[0] && (got[0] + tail)[MESSAGE..] == tail;
      assert (sent[0] + Stream(sent[1..]))[..MESSAGE] == sent[0]
             && (sent[0] + Stream(sent[1..]))[MESSAGE..] == Stream(sent[1..]);
      StreamSplitsOnce(got[1..], rest, sent[1..]);
      assert got == [got[0]] + got[1..] && sent[..|got|] == [sent[0]] + sent[1..][..|got| - 1];
      assert sent[|got|..] == sent[1..][|got| - 1..];
    }
  }

  // The reader's loop: messages are handed on in order until a read fails.
  method ConnLoop(conn: ConnSock, ghost sent: seq<seq<char>>) returns (got: seq<seq<char>>, last: int)
    requires Whole(sent) && conn.sock.incoming == Stream(sent)
    modifies conn`connReady, conn.sock`incoming
    ensures last <= 0
    ensures |got| <= |sent| && got == sent[..|got|]
    ensures last == 0 ==> got == sent
  {
    got, last := [], 1;
    var buf := new char[1024](_ => '\0');
    var running := true;
    ghost var lost: seq<char> := [];
    while running
      invariant Whole(got) && Stream(got) + lost + conn.sock.incoming == Stream(sent)
      invariant running ==> lost == [] && last > 0
      invariant !running ==> last <= 0 && |lost| < MESSAGE
      invariant last == 0 ==> conn.sock.incoming == []
      decreases if running then |conn.sock.incoming| + 1 else 0
    {
      ghost var before := conn.sock.incoming;
      var counts: int;
      ghost var taken: nat;
      counts, taken := conn.Read(buf, MESSAGE);
      last := counts;
      assert before == buf[..taken] + conn.sock.incoming;
      if counts > 0 {
        StreamAppend(got, buf[..MESSAGE]);
        got := got + [buf[..MESSAGE]];
      } else {
        lost := buf[..taken];
        running := false;
      }
    }
    assert Stream(got) + (lost + conn.sock.incoming) == Stream(sent);
    StreamSplitsOnce(got, lost + conn.sock.incoming, sent);
    if last == 0 {
      StreamLength(sent[|got|..]);
      assert |sent[|got|..]| == 0;
    }
  }
}
