/** Which address a request is taken to come from, when some peers are trusted proxies. */
module ClientIp {
  import opened Text

  /**
    net.ParseIP and IPNet.Contains, as the code uses them: which texts are addresses, and which addresses a net has.
   */
  datatype Addresses = Addresses(isIP: string -> bool, contains: (Net, string) -> bool)

  datatype Net = NilNet | Net(id: int)

  /** A request's peer address and headers; each header has its lines in order. */
  datatype Request = Request(peer: string, headers: map<string, seq<string>>)

  /** Go's unicode.IsSpace. */
  predicate IsSpace(c: char) {
    var n := c as int;
    || 0x09 <= n <= 0x0D || n == 0x20 || n == 0x85 || n == 0xA0 || n == 0x1680 || 0x2000 <= n <= 0x200A
    || n == 0x2028 || n == 0x2029 || n == 0x202F || n == 0x205F || n == 0x3000
  }

  /** strings.TrimSpace */
  function TrimSpace(s: string): string {
    if s == "" then ""
    else if IsSpace(s[0]) then TrimSpace(s[1..])
    else if IsSpace(s[|s| - 1]) then TrimSpace(s[..|s| - 1])
    else s
  }

  /** Header.Get: the first line of the header, or nothing. */
  function Get(r: Request, name: string): string {
    if name in r.headers && r.headers[name] != [] then r.headers[name][0] else ""
  }

  /** isIPInNets, as a fact about the nets. */
  predicate Trusted(a: Addresses, nets: seq<Net>, ip: string) {
    a.isIP(ip) && exists k :: 0 <= k < |nets| && nets[k].Net? && a.contains(nets[k], ip)
  }

  method IsIPInNets(a: Addresses, ip: string, nets: seq<Net>) returns (yes: bool)
    ensures yes == Trusted(a, nets, ip)
    ensures yes <==> a.isIP(ip) && exists k :: 0 <= k < |nets| && nets[k].Net? && a.contains(nets[k], ip)
  {
    if !a.isIP(ip) {
      return false;
    }
    for i := 0 to |nets|
      invariant forall k :: 0 <= k < i ==> !(nets[k].Net? && a.contains(nets[k], ip))
    {
      if nets[i].Net? && a.contains(nets[i], ip) {
        return true;
      }
    }
    return false;
  }

  /** A header entry that names a client: an address that no trusted net has. */
  predicate NamesClient(a: Addresses, nets: seq<Net>, entry: string) {
    a.isIP(TrimSpace(entry)) && !Trusted(a, nets, TrimSpace(entry))
  }

  /** What a list of entries decides: its last entry that names a client. */
  function LastClient(a: Addresses, nets: seq<Net>, entries: seq<string>): seq<string> {
    if entries == [] then []
    else if NamesClient(a, nets, entries[|entries| - 1]) then [TrimSpace(entries[|entries| - 1])]
    else LastClient(a, nets, entries[..|entries| - 1])
  }

  /** The entries of the first X-Forwarded-For line, left to right: all that the code looks at. */
  function Forwarded(r: Request): seq<string> {
    var fwd := Get(r, "X-Forwarded-For");
    if fwd == "" then [] else Split(fwd, ',')
  }

  /** The entry of X-Real-IP that is looked at: the first. */
  function RealIp(r: Request): string {
    Split(Get(r, "X-Real-IP"), ',')[0]
  }

  function ClientOf(a: Addresses, r: Request, nets: seq<Net>): string {
    if !Trusted(a, nets, r.peer) then r.peer
    else if Get(r, "X-Real-IP") != "" && NamesClient(a, nets, RealIp(r)) then TrimSpace(RealIp(r))
    else
      var last := LastClient(a, nets, Forwarded(r));
      if last == [] then r.peer else last[0]
  }

  /** GetClientIPWithNets, for a non-nil request whose peer address has been split from its port. */
  method GetClientIPWithNets(a: Addresses, r: Request, nets: seq<Net>) returns (ip: string)
    requires !a.isIP("")
    ensures ip == ClientOf(a, r, nets)
  {
    if |nets| == 0 {
      return r.peer;
    }
    var trusted := IsIPInNets(a, r.peer, nets);
    if !trusted {
      return r.peer;
    }
    var realIp := Get(r, "X-Real-IP");
    if realIp != "" {
      ip := TrimSpace(Split(realIp, ',')[0]);
      var inNets := IsIPInNets(a, ip, nets);
      if a.isIP(ip) && !inNets {
        return;
      }
    }
    var fwd := Get(r, "X-Forwarded-For");
    if fwd != "" {
      var parts := Split(fwd, ',');
      var i := |parts|;
      assert parts[..i] == parts;
      while i > 0
        invariant 0 <= i <= |parts|
        invariant LastClient(a, nets, parts) == LastClient(a, nets, parts[..i])
      {
        i := i - 1;
        LastStep(a, nets, parts, i);
        ip := TrimSpace(parts[i]);
        if ip == "" || !a.isIP(ip) {
          continue;
        }
        var inNets := IsIPInNets(a, ip, nets);
        if !inNets {
          return;
        }
      }
    }
    return r.peer;
  }

  lemma LastStep(a: Addresses, nets: seq<Net>, parts: seq<string>, i: nat)
    requires i < |parts|
    ensures LastClient(a, nets, parts[..i + 1])
         == if NamesClient(a, nets, parts[i]) then [TrimSpace(parts[i])] else LastClient(a, nets, parts[..i])
  {
    assert parts[..i + 1][..i] == parts[..i];
  }

  // ---- what the answer means ----

  /** The decided entry is the rightmost that names a client: one does, and none to its right. */
  lemma {:induction false} LastClientIsRightmost(a: Addresses, nets: seq<Net>, entries: seq<string>)
    ensures LastClient(a, nets, entries) == [] <==> forall k :: 0 <= k < |entries| ==> !NamesClient(a, nets, entries[k])
    ensures LastClient(a, nets, entries) != [] ==>
              exists i :: 0 <= i < |entries| && IsRightmost(a, nets, entries, i)
                          && LastClient(a, nets, entries) == [TrimSpace(entries[i])]
  {
    if entries != [] {
      var n := |entries| - 1;
      if NamesClient(a, nets, entries[n]) {
        assert IsRightmost(a, nets, entries, n);
      } else {
        LastClientIsRightmost(a, nets, entries[..n]);
        if LastClient(a, nets, entries[..n]) != [] {
          var i :| 0 <= i < n && IsRightmost(a, nets, entries[..n], i)
                   && LastClient(a, nets, entries[..n]) == [TrimSpace(entries[..n][i])];
          forall k | i < k < |entries|
            ensures !NamesClient(a, nets, entries[k])
          {
            if k < n {
              assert entries[..n][k] == entries[k];
            }
          }
          assert entries[..n][i] == entries[i];
          assert IsRightmost(a, nets, entries, i);
        } else {
          assert forall k :: 0 <= k < n ==> entries[..n][k] == entries[k];
        }
      }
    }
  }

  predicate IsRightmost(a: Addresses, nets: seq<Net>, entries: seq<string>, i: int) {
    && 0 <= i < |entries| && NamesClient(a, nets, entries[i])
    && forall k :: i < k < |entries| ==> !NamesClient(a, nets, entries[k])
  }

  lemma {:induction false} LastClientAppend(a: Addresses, nets: seq<Net>, left: seq<string>, right: seq<string>)
    ensures LastClient(a, nets, left + right)
         == if LastClient(a, nets, right) != [] then LastClient(a, nets, right) else LastClient(a, nets, left)
  {
    if right == [] {
      assert left + right == left;
    } else {
      var n := |right| - 1;
      assert (left + right)[|left| + n] == right[n];
      assert (left + right)[..|left| + n] == left + right[..n];
      LastClientAppend(a, nets, left, right[..n]);
    }
  }

  function WithForwarded(r: Request, line: string): Request {
    r.(headers := r.headers["X-Forwarded-For" := [line]])
  }

  lemma ForwardedOf(a: Addresses, nets: seq<Net>, r: Request, line: string)
    requires !a.isIP("")
    ensures LastClient(a, nets, Forwarded(WithForwarded(r, line))) == LastClient(a, nets, Split(line, ','))
    ensures Get(WithForwarded(r, line), "X-Real-IP") == Get(r, "X-Real-IP")
  {
    assert "X-Real-IP"[2] != "X-Forwarded-For"[2];
    if line == "" {
      assert Split(line, ',') == [""] && [""][..0] == [];
    }
  }

  /** Only what the forwarded entries decide matters of them. */
  lemma SameDecision(a: Addresses, nets: seq<Net>, r: Request, r': Request)
    requires r.peer == r'.peer && Get(r, "X-Real-IP") == Get(r', "X-Real-IP")
    requires LastClient(a, nets, Forwarded(r)) == LastClient(a, nets, Forwarded(r'))
    ensures ClientOf(a, r, nets) == ClientOf(a, r', nets)
  {
  }

  /**
    What a client puts before a proxy's entry has no effect: when the line decides, any text and a comma in front of it
    change nothing; when it does not, the answer is that of the text in front alone.
   */
  lemma PrependedTextIsIgnored(a: Addresses, r: Request, nets: seq<Net>, text: string, line: string)
    requires !a.isIP("")
    ensures ClientOf(a, WithForwarded(r, text + [','] + line), nets)
         == ClientOf(a, WithForwarded(r, if LastClient(a, nets, Split(line, ',')) != [] then line else text), nets)
  {
    SplitAppend(text, ',', line);
    LastClientAppend(a, nets, Split(text, ','), Split(line, ','));
    var long, short := text + [','] + line, if LastClient(a, nets, Split(line, ',')) != [] then line else text;
    ForwardedOf(a, nets, r, long);
    ForwardedOf(a, nets, r, short);
    SameDecision(a, nets, WithForwarded(r, long), WithForwarded(r, short));
  }

  /** The answer is the peer, or an address from a header that no trusted net has. */
  lemma AnswerIsPeerOrUntrusted(a: Addresses, r: Request, nets: seq<Net>)
    ensures var ip := ClientOf(a, r, nets);
            ip == r.peer || (a.isIP(ip) && !Trusted(a, nets, ip) && Trusted(a, nets, r.peer))
  {
    LastClientIsRightmost(a, nets, Forwarded(r));
  }

  lemma {:induction false} NoSplit(text: string, sep: char)
    requires sep !in text
    ensures Split(text, sep) == [text]
  {
    if text != "" {
      NoSplit(text[1..], sep);
      assert [text[0]] + text[1..] == text;
    }
  }

  lemma NothingNamed(a: Addresses, r: Request, nets: seq<Net>)
    requires forall text :: NamesClient(a, nets, text) ==> ',' in text
    ensures ClientOf(a, r, nets) == r.peer
  {
    assert RealIp(r) in Split(Get(r, "X-Real-IP"), ',');
    LastClientIsRightmost(a, nets, Forwarded(r));
  }

  /** No header has any effect exactly when the peer is not trusted, or no text without a comma could name a client. */
  lemma HeadersMatterIff(a: Addresses, r: Request, nets: seq<Net>)
    requires !a.isIP("")
    ensures (forall headers :: ClientOf(a, r.(headers := headers), nets) == r.peer)
       <==> !Trusted(a, nets, r.peer) || forall text :: NamesClient(a, nets, text) ==> ',' in text
  {
    if Trusted(a, nets, r.peer) {
      if text :| NamesClient(a, nets, text) && ',' !in text {
        var headers := map["X-Real-IP" := [text]];
        NoSplit(text, ',');
        assert text != "";
        assert ClientOf(a, r.(headers := headers), nets) == TrimSpace(text) != r.peer;
      } else {
        forall headers
          ensures ClientOf(a, r.(headers := headers), nets) == r.peer
        {
          NothingNamed(a, r.(headers := headers), nets);
        }
      }
    }
  }

  /** From a trusted peer, when X-Real-IP does not decide, the rightmost client of X-Forwarded-For is the answer. */
  lemma RightmostForwardedWins(a: Addresses, r: Request, nets: seq<Net>, i: nat)
    requires Trusted(a, nets, r.peer)
    requires Get(r, "X-Real-IP") == "" || !NamesClient(a, nets, RealIp(r))
    requires IsRightmost(a, nets, Forwarded(r), i)
    ensures ClientOf(a, r, nets) == TrimSpace(Forwarded(r)[i])
  {
    var entries := Forwarded(r);
    LastClientIsRightmost(a, nets, entries);
    var j :| 0 <= j < |entries| && IsRightmost(a, nets, entries, j)
             && LastClient(a, nets, entries) == [TrimSpace(entries[j])];
    assert i == j;
  }

  // ---- X-Real-IP ----

  predicate AllBlank(s: string) {
    forall c :: c in s ==> IsSpace(c)
  }

  /** A text that neither begins nor ends with a blank. */
  predicate Bare(s: string) {
    s != "" ==> !IsSpace(s[0]) && !IsSpace(s[|s| - 1])
  }

  /** TrimSpace takes away exactly the blanks around such a text. */
  lemma {:induction false} TrimSpaceIs(left: string, bare: string, right: string)
    requires AllBlank(left) && Bare(bare) && AllBlank(right)
    ensures TrimSpace(left + bare + right) == bare
    decreases |left| + |right|
  {
    var s := left + bare + right;
    if left != "" {
      assert s[0] == left[0] && s[1..] == left[1..] + bare + right;
      TrimSpaceIs(left[1..], bare, right);
    } else if right != "" {
      var n := |right| - 1;
      assert s[|s| - 1] == right[n] && s[..|s| - 1] == left + bare + right[..n];
      if bare == "" {
        assert s == right && s[1..] == left + bare + right[1..];
        TrimSpaceIs(left, bare, right[1..]);
      } else {
        assert s[0] == bare[0];
        TrimSpaceIs(left, bare, right[..n]);
      }
    } else {
      assert s == bare;
    }
  }

  lemma FirstEntry(e: string, rest: string)
    requires ',' !in e
    ensures Split(e, ',')[0] == e && Split(e + [','] + rest, ',')[0] == e
  {
    NoSplit(e, ',');
    SplitAppend(e, ',', rest);
  }

  /**
    X-Real-IP comes first: for a trusted peer, when the first entry of its first line, blanks aside, is an address that
    no trusted net has, that address is the answer, whatever the other headers say.
   */
  lemma RealIpDecides(a: Addresses, r: Request, nets: seq<Net>, left: string, ip: string, right: string, rest: string)
    requires Trusted(a, nets, r.peer) && a.isIP(ip) && !Trusted(a, nets, ip)
    requires AllBlank(left) && Bare(ip) && AllBlank(right) && ip != "" && ',' !in left + ip + right
    requires "X-Real-IP" in r.headers && r.headers["X-Real-IP"] != []
    requires r.headers["X-Real-IP"][0] in [left + ip + right, left + ip + right + [','] + rest]
    ensures ClientOf(a, r, nets) == ip
  {
    FirstEntry(left + ip + right, rest);
    TrimSpaceIs(left, ip, right);
    var line := r.headers["X-Real-IP"][0];
    assert line == left + ip + right || line == left + ip + right + [','] + rest;
    assert |line| > 0;
  }

  // ---- more than one X-Forwarded-For line ----

  /** The entries of several lines, left to right. */
  function AllEntries(lines: seq<string>): seq<string> {
    if lines == [] then [] else Split(lines[0], ',') + AllEntries(lines[1..])
  }

  /** The header as several lines; each proxy may add its own. */
  function WithLines(r: Request, lines: seq<string>): Request {
    r.(headers := r.headers["X-Forwarded-For" := lines])
  }

  /** X-Real-IP says nothing, and the peer may speak for others. */
  predicate ForwardedDecides(a: Addresses, r: Request, nets: seq<Net>) {
    Trusted(a, nets, r.peer) && (Get(r, "X-Real-IP") == "" || !NamesClient(a, nets, RealIp(r)))
  }

  /** The rightmost client over all lines, or else the peer. */
  function ClientOverLines(a: Addresses, r: Request, nets: seq<Net>, lines: seq<string>): string {
    var last := LastClient(a, nets, AllEntries(lines));
    if last == [] then r.peer else last[0]
  }

  lemma {:induction false} DecidedIsUntrusted(a: Addresses, nets: seq<Net>, entries: seq<string>)
    ensures |LastClient(a, nets, entries)| <= 1
    ensures LastClient(a, nets, entries) != [] ==> !Trusted(a, nets, LastClient(a, nets, entries)[0])
  {
    LastClientIsRightmost(a, nets, entries);
  }

  lemma LinesOf(r: Request, lines: seq<string>)
    requires lines != []
    ensures Forwarded(WithLines(r, lines)) == Forwarded(WithForwarded(r, lines[0]))
    ensures Get(WithLines(r, lines), "X-Real-IP") == Get(r, "X-Real-IP")
  {
    assert "X-Real-IP"[2] != "X-Forwarded-For"[2];
  }

  lemma FirstLineDecides(a: Addresses, r: Request, nets: seq<Net>, lines: seq<string>)
    requires !a.isIP("") && ForwardedDecides(a, r, nets) && lines != []
    ensures var last := LastClient(a, nets, Split(lines[0], ','));
            ClientOf(a, WithLines(r, lines), nets) == if last == [] then r.peer else last[0]
  {
    LinesOf(r, lines);
    ForwardedOf(a, nets, r, lines[0]);
  }

  lemma LaterLinesFirst(a: Addresses, nets: seq<Net>, lines: seq<string>)
    requires lines != []
    ensures var first, later := LastClient(a, nets, Split(lines[0], ',')), LastClient(a, nets, AllEntries(lines[1..]));
            LastClient(a, nets, AllEntries(lines)) == if later != [] then later else first
  {
    LastClientAppend(a, nets, Split(lines[0], ','), AllEntries(lines[1..]));
  }

  /**
    With several lines the answer is the rightmost client over all of them exactly when the later lines decide nothing,
    or decide what the first line does: the code never looks past the first.
   */
  lemma FirstLineIsAllIff(a: Addresses, r: Request, nets: seq<Net>, lines: seq<string>)
    requires !a.isIP("") && ForwardedDecides(a, r, nets) && lines != []
    ensures var first, later := LastClient(a, nets, Split(lines[0], ',')), LastClient(a, nets, AllEntries(lines[1..]));
            && (ClientOf(a, WithLines(r, lines), nets) == ClientOverLines(a, r, nets, lines)
                <==> later == [] || later == first)
  {
    FirstLineDecides(a, r, nets, lines);
    LaterLinesFirst(a, nets, lines);
    DecidedIsUntrusted(a, nets, Split(lines[0], ','));
    DecidedIsUntrusted(a, nets, AllEntries(lines[1..]));
  }

  lemma OneEntryEach(front: string, line: string)
    requires ',' !in front && ',' !in line
    ensures AllEntries([front, line]) == [front, line]
  {
    NoSplit(front, ',');
    NoSplit(line, ',');
    assert [line][1..] == [] && AllEntries([]) == [];
    assert AllEntries([line]) == [line] + [];
    assert [front, line][1..] == [line];
    assert AllEntries([front, line]) == [front] + AllEntries([line]);
  }

  /** So a line in front of a proxy's line decides instead of it: here two addresses, neither of a trusted net. */
  lemma LineInFrontDecides(a: Addresses, r: Request, nets: seq<Net>, front: string, line: string)
    requires !a.isIP("") && ForwardedDecides(a, r, nets)
    requires NamesClient(a, nets, front) && NamesClient(a, nets, line) && ',' !in front && ',' !in line
    ensures ClientOf(a, WithLines(r, [front, line]), nets) == TrimSpace(front)
    ensures ClientOverLines(a, r, nets, [front, line]) == TrimSpace(line)
  {
    NoSplit(front, ',');
    FirstLineDecides(a, r, nets, [front, line]);
    OneEntryEach(front, line);
  }
}
