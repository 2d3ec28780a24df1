/** Operator sockets of the form host:port0;port1;...;portk. */
module Sockets {
  /** Position of the first `c`, or the length when there is none. */
  function IndexOf(s: string, c: char): (i: nat)
    ensures i <= |s|
    ensures i < |s| ==> s[i] == c
    ensures c !in s[..i]
  {
    if |s| == 0 || s[0] == c then 0 else 1 + IndexOf(s[1..], c)
  }

  /** strings.Split for a one-character separator: always at least one piece. */
  function Split(s: string, sep: char): (pieces: seq<string>)
    ensures |pieces| >= 1
    decreases |s|
  {
    var i := IndexOf(s, sep);
    if i == |s| then [s] else [s[..i]] + Split(s[i + 1..], sep)
  }

  function Join(pieces: seq<string>, sep: char): string
    requires |pieces| >= 1
  {
    if |pieces| == 1 then pieces[0] else pieces[0] + [sep] + Join(pieces[1..], sep)
  }

  /** parseSocket; a negative index is not modelled, no caller passes one. */
  function ParseSocket(socket: string, portIndex: nat): string {
    var colon := IndexOf(socket, ':');
    if colon == |socket| then socket
    else
      var ports := Split(socket[colon + 1..], ';');
      if portIndex < |ports| then socket[..colon] + ":" + ports[portIndex] else socket
  }

  function ParseRetrievalSocket(socket: string): string { ParseSocket(socket, 1) }

  function ParseV2RetrievalSocket(socket: string): string { ParseSocket(socket, 3) }

  function PrintSocket(host: string, ports: seq<string>): string
    requires |ports| >= 1
  {
    host + ":" + Join(ports, ';')
  }

  lemma {:induction false} IndexOfUnique(s: string, c: char, i: nat)
    requires i <= |s| && c !in s[..i]
    requires i < |s| ==> s[i] == c
    ensures IndexOf(s, c) == i
  {
    if i > 0 {
      assert s[0] in s[..i];
      assert s[..i] == [s[0]] + s[1..][..i - 1];
      IndexOfUnique(s[1..], c, i - 1);
    }
  }

  lemma {:induction false} SplitJoin(pieces: seq<string>, sep: char)
    requires |pieces| >= 1
    requires forall p :: p in pieces ==> sep !in p
    ensures Split(Join(pieces, sep), sep) == pieces
    decreases |pieces|
  {
    var s := Join(pieces, sep);
    if |pieces| == 1 {
      assert s[..|s|] == s;
      IndexOfUnique(s, sep, |s|);
    } else {
      var i := |pieces[0]|;
      assert s[..i] == pieces[0];
      IndexOfUnique(s, sep, i);
      assert s[i + 1..] == Join(pieces[1..], sep);
      SplitJoin(pieces[1..], sep);
    }
  }

  lemma {:induction false} JoinSplit(s: string, sep: char)
    ensures Join(Split(s, sep), sep) == s
    ensures forall p :: p in Split(s, sep) ==> sep !in p
    decreases |s|
  {
    var i := IndexOf(s, sep);
    if i < |s| {
      var first, rest := s[..i], s[i + 1..];
      var pieces := Split(rest, sep);
      JoinSplit(rest, sep);
      assert s == first + [sep] + rest;
      assert Split(s, sep) == [first] + pieces;
      hide Split;
      assert ([first] + pieces)[1..] == pieces;
    } else {
      assert s[..i] == s;
    }
  }

  /** Printing and parsing back with an index in range selects that port; past the end nothing changes. */
  lemma ParsePrinted(host: string, ports: seq<string>, i: nat)
    requires ':' !in host
    requires |ports| >= 1
    requires forall p :: p in ports ==> ';' !in p
    ensures ParseSocket(PrintSocket(host, ports), i)
         == if i < |ports| then host + ":" + ports[i] else PrintSocket(host, ports)
  {
    var socket := PrintSocket(host, ports);
    assert socket[..|host|] == host;
    IndexOfUnique(socket, ':', |host|);
    assert socket[|host| + 1..] == Join(ports, ';');
    SplitJoin(ports, ';');
  }

  /** Every socket with a colon is a printed one, so the round trip covers all of them. */
  lemma EverySocketIsPrinted(socket: string) returns (host: string, ports: seq<string>)
    requires ':' in socket
    ensures ':' !in host && |ports| >= 1 && forall p :: p in ports ==> ';' !in p
    ensures PrintSocket(host, ports) == socket
  {
    var colon := IndexOf(socket, ':');
    assert colon < |socket| by { assert socket[..|socket|] == socket; }
    host, ports := socket[..colon], Split(socket[colon + 1..], ';');
    JoinSplit(socket[colon + 1..], ';');
    assert socket == host + ":" + socket[colon + 1..];
  }

  lemma NoColonUnchanged(socket: string, i: nat)
    ensures ':' !in socket ==> ParseSocket(socket, i) == socket
  {
    if ':' !in socket { assert socket[..|socket|] == socket; IndexOfUnique(socket, ':', |socket|); }
  }

  /** The two retrieval sockets are those of the second and the fourth port, if the operator lists them. */
  lemma RetrievalSockets(host: string, ports: seq<string>)
    requires ':' !in host
    requires |ports| >= 1
    requires forall p :: p in ports ==> ';' !in p
    ensures ParseRetrievalSocket(PrintSocket(host, ports))
         == if |ports| >= 2 then host + ":" + ports[1] else PrintSocket(host, ports)
    ensures ParseV2RetrievalSocket(PrintSocket(host, ports))
         == if |ports| >= 4 then host + ":" + ports[3] else PrintSocket(host, ports)
  {
    ParsePrinted(host, ports, 1);
    ParsePrinted(host, ports, 3);
  }
}
