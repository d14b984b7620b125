/**
 Position packets, "Zp:PID-VID:DATA". The identifiers are parsed twice: up to the first colon to find out whose
 vehicle the packet is about, and up to the first brace to store its position. Only the first is checked against
 the sender.
 */
module PositionPackets {
  import opened Clients
  import opened Wrappers

  const INT_MAX := 0x7FFF_FFFF

  /** The first index of a character; the string's length if it does not occur. */
  predicate FoundAt(s: string, c: char, pos: nat) {
    && pos <= |s| && (pos < |s| ==> s[pos] == c)
    && forall i | 0 <= i < pos :: s[i] != c
  }

  function Find(s: string, c: char): (pos: nat)
    ensures FoundAt(s, c, pos)
  {
    if s == [] || s[0] == c then 0 else 1 + Find(s[1..], c)
  }

  predicate IsDigit(c: char) {
    '0' <= c <= '9'
  }

  predicate AllDigits(s: string) {
    forall i | 0 <= i < |s| :: IsDigit(s[i])
  }

  function Value(s: string): nat
    requires AllDigits(s)
  {
    if s == [] then 0 else Value(s[..|s| - 1]) * 10 + (s[|s| - 1] as int - '0' as int)
  }

  /** Conversion to a 32-bit number; there must be a digit, and the number must fit. */
  function ToInt(s: string): Option<nat>
    requires AllDigits(s)
  {
    if s != [] && Value(s) <= INT_MAX then Some(Value(s)) else None
  }

  datatype PidVid = PidVid(pid: nat, vid: nat)

  /** Without a dash the whole string is both the player's and the vehicle's identifier. */
  function GetPidVid(s: string): Option<PidVid> {
    var sep := Find(s, '-');
    var pid := s[..sep];
    var vid := if sep < |s| then s[sep + 1..] else s;
    if AllDigits(pid) && AllDigits(vid) && ToInt(pid).Some? && ToInt(vid).Some?
    then Some(PidVid(ToInt(pid).value, ToInt(vid).value))
    else None
  }

  datatype PidVidData = PidVidData(pid: nat, vid: nat, data: string)

  function ParsePositionPacket(packet: string): Option<PidVidData> {
    if |packet| < 3 then None else
    var withoutCode := packet[3..];
    var begin := Find(withoutCode, '{');
    if begin == |withoutCode| || begin == 0 then None else
    match GetPidVid(withoutCode[..begin - 1])
    case Some(ids) => Some(PidVidData(ids.pid, ids.vid, withoutCode[begin..]))
    case None => None
  }

  /** The identifiers as the packet dispatcher reads them. A packet of one or two characters is an exception. */
  function DispatchedIds(packet: string): Option<PidVid>
    requires |packet| >= 3
  {
    GetPidVid(packet[3..][..Find(packet[3..], ':')])
  }

  datatype Outcome = Exception | Dropped | Relayed

  method HandlePosition(c: Client, packet: string)
    modifies c`positions
    ensures c.positions ==
      match ParsePositionPacket(packet)
      case Some(p) => old(c.positions)[p.vid := p.data]
      case None => old(c.positions)
  {
    var parsed := ParsePositionPacket(packet);
    if parsed.Some? {
      c.SetCarPosition(parsed.value.vid, parsed.value.data);
    }
  }

  /** A position packet is relayed exactly from the player it names, and stored exactly when it parses as well. */
  method DispatchPosition(c: Client, packet: string) returns (outcome: Outcome)
    modifies c`positions
    ensures outcome.Exception? <==> |packet| < 3
    ensures outcome.Relayed?
      <==> |packet| >= 3 && DispatchedIds(packet).Some? && DispatchedIds(packet).value.pid == c.id
    ensures outcome.Relayed? && ParsePositionPacket(packet).Some? ==>
      var p := ParsePositionPacket(packet).value;
      && p.pid == c.id && p.vid == DispatchedIds(packet).value.vid
      && c.positions == old(c.positions)[p.vid := p.data]
    ensures !(outcome.Relayed? && ParsePositionPacket(packet).Some?) ==> c.positions == old(c.positions)
  {
    if |packet| < 3 {
      return Exception;
    }
    var pid: int, vid: int := -1, -1;
    var ids := DispatchedIds(packet);
    if ids.Some? {
      pid, vid := ids.value.pid, ids.value.vid;
    }
    if pid == -1 || vid == -1 || pid != c.id {
      return Dropped;
    }
    HandlePosition(c, packet);
    ParsersAgree(packet);
    return Relayed;
  }

  /*******************************************************************************
   *  The two parses agree
   *******************************************************************************/

  /** The first n characters are characters of identifiers. */
  predicate IdChars(s: string, n: nat)
    requires n <= |s|
  {
    forall i | 0 <= i < n :: IsDigit(s[i]) || s[i] == '-'
  }

  lemma OnlyIdChars(s: string, n: nat)
    requires n <= |s| && GetPidVid(s[..n]).Some?
    ensures IdChars(s, n)
  {
    var t := s[..n];
    var sep := Find(t, '-');
    forall i | 0 <= i < n ensures IsDigit(s[i]) || s[i] == '-' {
      if i < sep {
        assert s[i] == t[..sep][i];
      } else if i > sep {
        assert s[i] == t[sep + 1..][i - sep - 1];
      }
    }
  }

  /** The only character of no identifier before the brace can be the one right before it. */
  lemma ColonOrNot(s: string, colon: nat, brace: nat)
    requires FoundAt(s, ':', colon) && FoundAt(s, '{', brace) && 0 < brace < |s|
    requires IdChars(s, brace - 1)
    ensures IdChars(s, colon) ==> colon == brace - 1
    ensures colon == brace - 1 <==> s[brace - 1] == ':'
  {
  }

  lemma ColonBeforeBrace(s: string, colon: nat, brace: nat)
    requires FoundAt(s, ':', colon) && FoundAt(s, '{', brace) && 0 < brace < |s|
    requires GetPidVid(s[..brace - 1]).Some?
    ensures GetPidVid(s[..colon]).Some? <==> colon == brace - 1
    ensures colon == brace - 1 <==> s[brace - 1] == ':'
  {
    OnlyIdChars(s, brace - 1);
    ColonOrNot(s, colon, brace);
    if GetPidVid(s[..colon]).Some? {
      OnlyIdChars(s, colon);
    }
  }

  /** The parts that ParsePositionPacket takes a packet apart into. */
  lemma ParsedParts(packet: string)
    requires |packet| >= 3 && ParsePositionPacket(packet).Some?
    ensures
      var s, p := packet[3..], ParsePositionPacket(packet).value;
      var brace := Find(s, '{');
      && 0 < brace < |s| && p.data == s[brace..]
      && GetPidVid(s[..brace - 1]) == Some(PidVid(p.pid, p.vid))
  {
  }

  /** If both parses succeed, the colon stands right before the brace and the identifiers are the same. */
  lemma ParsersAgree(packet: string)
    requires |packet| >= 3
    ensures DispatchedIds(packet).Some? && ParsePositionPacket(packet).Some? ==>
      var p := ParsePositionPacket(packet).value;
      && DispatchedIds(packet) == Some(PidVid(p.pid, p.vid))
      && Find(packet[3..], ':') + 1 == Find(packet[3..], '{')
  {
    if DispatchedIds(packet).Some? && ParsePositionPacket(packet).Some? {
      ParsedParts(packet);
      ColonBeforeBrace(packet[3..], Find(packet[3..], ':'), Find(packet[3..], '{'));
    }
  }

  /** Without that colon the two would name different vehicles; the dispatcher then drops the packet. */
  lemma DispatchedIffColonBeforeBrace(packet: string)
    requires |packet| >= 3 && ParsePositionPacket(packet).Some?
    ensures DispatchedIds(packet).Some? <==> packet[3..][Find(packet[3..], '{') - 1] == ':'
  {
    ParsedParts(packet);
    ColonBeforeBrace(packet[3..], Find(packet[3..], ':'), Find(packet[3..], '{'));
  }

  /*******************************************************************************
   *  Printing and parsing
   *******************************************************************************/

  function Digit(n: nat): (c: char)
    requires n < 10
    ensures IsDigit(c) && c as int - '0' as int == n
  {
    ('0' as int + n) as char
  }

  function Print(n: nat): (s: string)
    ensures s != [] && AllDigits(s)
  {
    if n < 10 then [Digit(n)] else Print(n / 10) + [Digit(n % 10)]
  }

  lemma {:induction false} PrintedValue(n: nat)
    ensures Value(Print(n)) == n
  {
    if n >= 10 {
      PrintedValue(n / 10);
      var s := Print(n);
      assert s[..|s| - 1] == Print(n / 10);
    } else {
      assert Print(n)[..0] == [];
    }
  }

  lemma FindAt(s: string, c: char, i: nat)
    requires i < |s| && s[i] == c && c !in s[..i]
    ensures Find(s, c) == i
  {
    forall j | 0 <= j < i ensures s[j] != c {
      assert s[j] in s[..i];
    }
  }

  /** A number that fits 32 bits with a sign, in decimal digits, leading zeros allowed. */
  predicate IsNumeral(s: string) {
    s != [] && (forall i | 0 <= i < |s| :: '0' <= s[i] <= '9') && Value(s) <= 2147483647
  }

  /** Exactly which strings parse as identifiers, by their parts before and after the first dash. */
  lemma ParsesIff(a: string, b: string)
    requires '-' !in a
    ensures GetPidVid(a + "-" + b)
      == if IsNumeral(a) && IsNumeral(b) then Some(PidVid(Value(a), Value(b))) else None
    ensures GetPidVid(a) == if IsNumeral(a) then Some(PidVid(Value(a), Value(a))) else None
  {
    var s := a + "-" + b;
    assert s[..|a|] == a && s[|a| + 1..] == b;
    FindAt(s, '-', |a|);
    assert Find(a, '-') == |a| by {
      assert forall i | 0 <= i < |a| :: a[i] in a;
    }
    assert a[..|a|] == a;
  }

  function Printed(pid: nat, vid: nat): string {
    Print(pid) + "-" + Print(vid)
  }

  lemma PidVidRoundTrip(pid: nat, vid: nat)
    requires pid <= 2147483647 && vid <= 2147483647
    ensures GetPidVid(Printed(pid, vid)) == Some(PidVid(pid, vid))
  {
    var s, n := Printed(pid, vid), |Print(pid)|;
    assert s[..n] == Print(pid) && s[n + 1..] == Print(vid);
    FindAt(s, '-', n);
    PrintedValue(pid);
    PrintedValue(vid);
  }

  function PositionPacket(pid: nat, vid: nat, data: string): string {
    "Zp:" + Printed(pid, vid) + ":" + data
  }

  lemma PrintedChars(pid: nat, vid: nat)
    ensures IdChars(Printed(pid, vid), |Printed(pid, vid)|)
  {
  }

  lemma PacketSplits(pid: nat, vid: nat, data: string)
    requires data != [] && data[0] == '{'
    ensures
      var s, n := PositionPacket(pid, vid, data)[3..], |Printed(pid, vid)|;
      && s[..n] == Printed(pid, vid) && s[n + 1..] == data && n > 0
      && Find(s, ':') == n && Find(s, '{') == n + 1 && |s| > n + 1
  {
    var ids := Printed(pid, vid);
    var s := ids + ":" + data;
    assert PositionPacket(pid, vid, data)[3..] == s;
    PrintedChars(pid, vid);
    assert s[..|ids|] == ids && s[..|ids| + 1] == ids + ":" && s[|ids| + 1..] == data;
    FindAt(s, ':', |ids|);
    FindAt(s, '{', |ids| + 1);
  }

  /** Two digits are tens and ones. */
  lemma TwoDigits(s: string)
    requires |s| == 2 && IsDigit(s[0]) && IsDigit(s[1])
    ensures Value(s) == 10 * (s[0] as int - 48) + (s[1] as int - 48)
  {
    var tens := s[..1];
    assert tens == [s[0]] && tens[..0] == [];
    assert Value(tens) == Value(tens[..0]) * 10 + (tens[0] as int - '0' as int);
    assert Value(s) == Value(tens) * 10 + (s[1] as int - '0' as int);
  }

  /** Every packet of this form is parsed back, by both parses, to what it was made of. */
  lemma PositionRoundTrip(pid: nat, vid: nat, data: string)
    requires pid <= 2147483647 && vid <= 2147483647 && data != [] && data[0] == '{'
    ensures ParsePositionPacket(PositionPacket(pid, vid, data)) == Some(PidVidData(pid, vid, data))
    ensures DispatchedIds(PositionPacket(pid, vid, data)) == Some(PidVid(pid, vid))
  {
    PacketSplits(pid, vid, data);
    PidVidRoundTrip(pid, vid);
  }
}
