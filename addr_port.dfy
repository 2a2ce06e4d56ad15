/**
 * The "addr:port" strings the relay keeps in its inTable and outTable: how
 * they are written (`addr + ":" + port`) and how they are read back
 * (`split(":")`, `segments[0]`, `Integer.parseInt(segments[1])`).
 */
module AddrPort {
  import opened Wrappers
  import opened JavaLang

  datatype Endpoint = Endpoint(addr: string, port: JInt)

  /** `addr + ":" + port`, the form stored in inTable and outTable. */
  function Encode(addr: string, port: JInt): string {
    addr + ":" + IntToString(port)
  }

  /** The position of the first `c` in `s`, if any. */
  function FirstIndex(s: string, c: char): (r: Option<nat>)
    ensures r.None? <==> c !in s
    ensures r.Some? ==> r.value < |s| && s[r.value] == c && c !in s[..r.value]
  {
    if |s| == 0 then None
    else if s[0] == c then Some(0)
    else
      match FirstIndex(s[1..], c)
      case None => None
      case Some(i) =>
        assert s[..i + 1] == [s[0]] + s[1..][..i];
        Some(i + 1)
  }

  /**
   * The endpoint read back from a stored string. `split(":")` yields the
   * text before the first colon as segment 0 and the text up to the next
   * colon as segment 1 (dropping trailing empty segments only ever turns an
   * empty segment 1 into a missing one, and both throw). `None` where Java
   * throws: no colon at all, or a segment 1 that is not an `int`.
   */
  function Split(s: string): (r: Option<Endpoint>)
    ensures r.Some? ==> ':' !in r.value.addr && |r.value.addr| < |s|
                        && s[..|r.value.addr| + 1] == r.value.addr + ":"
    ensures ':' !in s ==> r.None?
  {
    match FirstIndex(s, ':')
    case None => None
    case Some(i) =>
      var rest := s[i + 1..];
      var field := match FirstIndex(rest, ':') case None => rest case Some(j) => rest[..j];
      match ParseInt(field)
      case None => None
      case Some(p) =>
        assert s[..i + 1] == s[..i] + ":";
        Some(Endpoint(s[..i], p))
  }

  /** Reading back a stored "addr:port" recovers the endpoint, for any colon-free address. */
  lemma SplitEncode(addr: string, port: JInt)
    requires ':' !in addr
    ensures Split(Encode(addr, port)) == Some(Endpoint(addr, port))
  {
    var s := Encode(addr, port);
    IntToStringHasNoColon(port);
    assert s[|addr|] == ':';
    assert s[..|addr|] == addr;
    assert FirstIndex(s, ':') == Some(|addr|);
    assert s[|addr| + 1..] == IntToString(port);
    ParseIntToString(port);
  }

  /**
   * The colon-free hypothesis of SplitEncode is needed: an address with a
   * colon, such as the IPv6 literal "::1", is stored fine but does not read
   * back, because segment 0 ends at its first colon.
   */
  lemma SplitColonAddress(port: JInt)
    ensures Split(Encode("::1", port)).None?
  {
    var s := Encode("::1", port);
    assert s[0] == ':';
    assert FirstIndex(s, ':') == Some(0);
    var rest := s[1..];
    assert rest[0] == ':';
    assert FirstIndex(rest, ':') == Some(0);
    assert rest[..0] == "";
  }

  /**
   * Other addresses with a colon are misread without any error: "1:2"
   * stored with port 80 reads back as host "1", port 2.
   */
  lemma SplitMisreadsColonAddress()
    ensures Split(Encode("1:2", 80)) == Some(Endpoint("1", 2))
  {
    var s := Encode("1:2", 80);
    assert IntToString(80) == "80";
    assert s == "1:2:80";
    assert FirstIndex(s, ':') == Some(1);
    assert s[..1] == "1";
    assert s[2..] == "2:80";
    assert FirstIndex(s[2..], ':') == Some(1);
    assert s[2..][..1] == "2";
    assert ParseInt("2") == Some(2);
  }

  /** "h:70000" splits into host "h" and port 70000, a valid `int` but no socket port. */
  lemma SplitHighPort()
    ensures Split("h:70000") == Some(Endpoint("h", 70000))
  {
    var s := "h:70000";
    assert s[..1] == "h" && s[1] == ':';
    assert FirstIndex(s, ':') == Some(1);
    assert s[2..] == "70000";
    assert FirstIndex(s[2..], ':').None?;
    SeventyThousand();
  }
}
