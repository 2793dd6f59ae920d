/**
 Lists of hosts as text (src/net/parser.rs, src/net/host.rs): the parser is a cursor that moves over
 the characters; what it accepts is given by splitting at commas and colons.
 */
module Hosts {
  import opened Options

  datatype Host = Host(name: string, port: nat)

  // ---------------------------------------------------------------------------------------------
  // Ports in decimal

  predicate Digits(s: string)
  {
    forall i :: 0 <= i < |s| ==> '0' <= s[i] <= '9'
  }

  function DecimalValue(s: string): nat
    requires Digits(s)
  {
    if s == "" then 0 else 10 * DecimalValue(s[..|s| - 1]) + (s[|s| - 1] as int - '0' as int)
  }

  /** The text of a u16: a plus sign is allowed, a minus sign is not, and the value must fit. */
  function ParsePort(s: string): Option<nat>
  {
    var digits := if s != "" && s[0] == '+' then s[1..] else s;
    if digits == "" || !Digits(digits) then None
    else if DecimalValue(digits) >= 0x1_0000 then None
    else Some(DecimalValue(digits))
  }

  function Decimal(n: nat): (s: string)
    ensures s != "" && Digits(s)
  {
    if n < 10 then [(n + '0' as int) as char] else Decimal(n / 10) + [(n % 10 + '0' as int) as char]
  }

  lemma {:induction false} DecimalRoundTrip(n: nat)
    ensures DecimalValue(Decimal(n)) == n
  {
    var s := Decimal(n);
    if n >= 10 {
      DecimalRoundTrip(n / 10);
      assert s[..|s| - 1] == Decimal(n / 10);
    } else {
      assert s[..|s| - 1] == "";
    }
  }

  lemma PortRoundTrip(port: nat)
    ensures ParsePort(Decimal(port)) == if port < 0x1_0000 then Some(port) else None
  {
    DecimalRoundTrip(port);
    assert Decimal(port)[0] != '+';
  }

  // ---------------------------------------------------------------------------------------------
  // Splitting

  /** The text in front of the first `c`. */
  function Head(s: string, c: char): (h: string)
    ensures h <= s && c !in h
    ensures |h| < |s| ==> s[|h|] == c
  {
    if s == "" || s[0] == c then "" else [s[0]] + Head(s[1..], c)
  }

  function Split(s: string, c: char): (parts: seq<string>)
    ensures parts != [] && parts[0] == Head(s, c)
    decreases |s|
  {
    var h := Head(s, c);
    if |h| == |s| then [h] else [h] + Split(s[|h| + 1..], c)
  }

  function AddrHost(parts: seq<string>, defaultPort: nat): Option<Host>
  {
    if "" in parts then None
    else if |parts| == 1 then Some(Host(parts[0], defaultPort))
    else if |parts| == 2 then
      Some(Host(parts[0], if ParsePort(parts[1]).Some? then ParsePort(parts[1]).value else defaultPort))
    else if |parts| == 3 && ParsePort(parts[2]).Some? then Some(Host(parts[0], ParsePort(parts[2]).value))
    else None
  }

  function AddrHosts(addrs: seq<string>, defaultPort: nat): Option<seq<Host>>
  {
    if addrs == [] then Some([])
    else
      var host, rest := AddrHost(Split(addrs[0], ':'), defaultPort), AddrHosts(addrs[1..], defaultPort);
      if host.Some? && rest.Some? then Some([host.value] + rest.value) else None
  }

  function ParseHosts(s: string, defaultPort: nat): Option<seq<Host>>
  {
    AddrHosts(Split(s, ','), defaultPort)
  }

  lemma {:induction false} HeadIs(h: string, rest: string, c: char)
    requires c !in h && (rest == "" || rest[0] == c)
    ensures Head(h + rest, c) == h
  {
    if h == "" {
      assert h + rest == rest;
    } else {
      assert (h + rest)[1..] == h[1..] + rest;
      HeadIs(h[1..], rest, c);
    }
  }

  // ---------------------------------------------------------------------------------------------
  // The parser

  class Parser {
    var s: string
    const defaultPort: nat

    constructor (s: string, defaultPort: nat)
      ensures this.s == s && this.defaultPort == defaultPort
    {
      this.s, this.defaultPort := s, defaultPort;
    }

    /** The characters up to a colon, a comma or the end, if there are any. */
    method ReadAddrPart() returns (r: Option<string>)
      modifies `s
      ensures r.Some? ==>
        && old(s) == r.value + s && r.value != "" && ':' !in r.value && ',' !in r.value
        && (s == "" || s[0] == ':' || s[0] == ',')
      ensures r.None? <==> old(s) == "" || old(s)[0] == ':' || old(s)[0] == ','
    {
      var substr := "";
      while s != "" && s[0] != ':' && s[0] != ','
        invariant old(s) == substr + s && ':' !in substr && ',' !in substr
        decreases |s|
      {
        substr := substr + [s[0]];
        s := s[1..];
      }
      r := if substr == "" then None else Some(substr);
    }

    /** The parts up to a comma or the end, if none of them is empty. */
    method ReadAddrTuple() returns (r: Option<seq<string>>)
      modifies `s
      ensures r == if "" in PartsOf(old(s)) then None else Some(PartsOf(old(s)))
      ensures r.Some? ==> s == BehindAddr(old(s))
    {
      hide PartsOf, BehindAddr;
      var parts: seq<string> := [];
      while true
        invariant PartsOf(old(s)) == parts + PartsOf(s) && "" !in parts
        invariant BehindAddr(s) == BehindAddr(old(s))
        decreases |s|
      {
        ghost var before := s;
        var part := ReadAddrPart();
        if part.None? {
          EmptyPart(before);
          return None;
        }
        NextPart(part.value, s);
        parts := parts + [part.value];
        if s != "" && s[0] == ':' {
          s := s[1..];
        } else {
          assert PartsOf(old(s)) == parts;
          return Some(parts);
        }
      }
    }

    method HostOf(parts: seq<string>) returns (r: Option<Host>)
      requires "" !in parts
      ensures r == AddrHost(parts, defaultPort)
    {
      if |parts| == 3 {
        var port := ParsePort(parts[2]);
        return if port.Some? then Some(Host(parts[0], port.value)) else None;
      } else if |parts| == 2 {
        var port := ParsePort(parts[1]);
        return Some(Host(parts[0], if port.Some? then port.value else defaultPort));
      } else if |parts| == 1 {
        return Some(Host(parts[0], defaultPort));
      }
      return None;
    }

    method ReadHosts() returns (r: Option<seq<Host>>)
      modifies `s
      ensures r == ParseHosts(old(s), defaultPort)
      ensures r.Some? ==> s == ""
    {
      hide AddrHost, PartsOf, BehindAddr, ParseHosts;
      var hosts: seq<Host> := [];
      NothingPrepended(ParseHosts(s, defaultPort));
      while true
        invariant ParseHosts(old(s), defaultPort) == Prepended(hosts, ParseHosts(s, defaultPort))
        decreases |s|
      {
        ghost var before := s;
        var addr := ReadAddrTuple();
        NextHost(before, defaultPort);
        if addr.None? {
          return None;
        }
        var host := HostOf(addr.value);
        if host.None? {
          return None;
        }
        Prepends(hosts, host.value, ParseHosts(if s != "" then s[1..] else s, defaultPort));
        hosts := hosts + [host.value];
        if s != "" && s[0] == ',' {
          s := s[1..];
        } else {
          return Some(hosts);
        }
      }
    }
  }

  function Prepended(hosts: seq<Host>, more: Option<seq<Host>>): Option<seq<Host>>
  {
    if more.Some? then Some(hosts + more.value) else None
  }

  lemma Prepends(hosts: seq<Host>, host: Host, more: Option<seq<Host>>)
    ensures Prepended(hosts, Prepended([host], more)) == Prepended(hosts + [host], more)
  {
    if more.Some? {
      assert hosts + ([host] + more.value) == hosts + [host] + more.value;
    }
  }

  lemma NothingPrepended(more: Option<seq<Host>>)
    ensures Prepended([], more) == more
  {
    if more.Some? {
      assert [] + more.value == more.value;
    }
  }

  /** The parts of the address at the front of the text, and what is behind it. */
  function PartsOf(s: string): seq<string>
  {
    Split(Head(s, ','), ':')
  }

  function BehindAddr(s: string): (r: string)
    ensures |r| <= |s|
  {
    s[|Head(s, ',')|..]
  }

  lemma EmptyPart(s: string)
    requires s == "" || s[0] == ':' || s[0] == ','
    ensures "" in PartsOf(s)
  {
    assert PartsOf(s)[0] == "";
  }

  /** Behind a part, either the address goes on or it ends. */
  lemma NextPart(part: string, rest: string)
    requires part != "" && ':' !in part && ',' !in part && (rest == "" || rest[0] == ':' || rest[0] == ',')
    ensures PartsOf(part + rest) == [part] + if rest != "" && rest[0] == ':' then PartsOf(rest[1..]) else []
    ensures BehindAddr(part + rest) == if rest != "" && rest[0] == ':' then BehindAddr(rest[1..]) else rest
  {
    HeadJoin(part, rest, ',');
    var tail := Head(rest, ',');
    HeadIs(part, tail, ':');
    if rest != "" && rest[0] == ':' {
      assert (part + tail)[|part| + 1..] == tail[1..] == Head(rest[1..], ',');
    }
  }

  lemma {:induction false} HeadJoin(h: string, rest: string, c: char)
    requires c !in h
    ensures Head(h + rest, c) == h + Head(rest, c)
  {
    if h == "" {
      assert h + rest == rest;
    } else {
      assert (h + rest)[1..] == h[1..] + rest;
      HeadJoin(h[1..], rest, c);
    }
  }

  lemma NextHost(s: string, defaultPort: nat)
    ensures var host, rest := AddrHost(PartsOf(s), defaultPort), BehindAddr(s);
      && ("" in PartsOf(s) ==> host.None?)
      && (host.None? ==> ParseHosts(s, defaultPort) == None)
      && (rest != "" ==> rest[0] == ',')
      && (host.Some? && rest == "" ==> ParseHosts(s, defaultPort) == Some([host.value]))
      && (host.Some? && rest != "" ==>
            ParseHosts(s, defaultPort) == Prepended([host.value], ParseHosts(rest[1..], defaultPort)))
  {
    hide AddrHost;
    var addr := Head(s, ',');
    var all := Split(s, ',');
    if "" in Split(addr, ':') {
      EmptyFails(Split(addr, ':'), defaultPort);
    }
    if |addr| < |s| {
      assert all[1..] == Split(s[|addr| + 1..], ',');
    } else {
      assert all == [addr] && all[1..] == [];
      assert AddrHosts([], defaultPort) == Some([]);
      if AddrHost(Split(addr, ':'), defaultPort).Some? {
        Alone(AddrHost(Split(addr, ':'), defaultPort));
      }
    }
  }

  lemma EmptyFails(parts: seq<string>, defaultPort: nat)
    requires "" in parts
    ensures AddrHost(parts, defaultPort).None?
  {
  }

  lemma Alone(host: Option<Host>)
    requires host.Some?
    ensures [host.value] + [] == [host.value]
  {
  }

  // ---------------------------------------------------------------------------------------------
  // Printing and parsing

  function Show(h: Host): string
  {
    h.name + (":" + Decimal(h.port))
  }

  function ShowAll(hosts: seq<Host>): string
  {
    if hosts == [] then ""
    else if |hosts| == 1 then Show(hosts[0])
    else Show(hosts[0]) + ("," + ShowAll(hosts[1..]))
  }

  predicate Plain(name: string)
  {
    name != "" && ':' !in name && ',' !in name
  }

  predicate AllPlain(hosts: seq<Host>)
  {
    forall i :: 0 <= i < |hosts| ==> Plain(hosts[i].name)
  }

  lemma DigitsOnly(port: nat)
    ensures ':' !in Decimal(port) && ',' !in Decimal(port)
  {
  }

  lemma {:induction false} HeadStops(a: string, b: string, c: char)
    requires c in a
    ensures Head(a + b, c) == Head(a, c) && |Head(a, c)| < |a|
  {
    if a[0] != c {
      assert (a + b)[1..] == a[1..] + b;
      HeadStops(a[1..], b, c);
    }
  }

  /** One host is read back exactly if its name has no colon and is not empty. */
  lemma OneHost(h: Host, defaultPort: nat)
    requires h.port < 0x1_0000 && ',' !in h.name
    ensures AddrHost(Split(Show(h), ':'), defaultPort) == Some(h) <==> Plain(h.name)
  {
    hide Decimal, ParsePort;
    DigitsOnly(h.port);
    PortRoundTrip(h.port);
    if ':' in h.name {
      HeadStops(h.name, ":" + Decimal(h.port), ':');
      assert Split(Show(h), ':')[0] != h.name;
    } else {
      SplitOnce(h.name, Decimal(h.port), ':');
    }
  }

  lemma SplitOnce(a: string, b: string, c: char)
    requires c !in a && c !in b
    ensures Split(a + ([c] + b), c) == [a, b]
  {
    HeadIs(a, [c] + b, c);
    HeadIs(b, "", c);
    assert b + "" == b;
    assert (a + ([c] + b))[|a| + 1..] == b;
    assert Split(b, c) == [b];
  }

  lemma {:induction false} SplitCounts(a: string, b: string, c: char)
    ensures |Split(a + ([c] + b), c)| == |Split(a, c)| + |Split(b, c)|
    decreases |a|
  {
    var rest := [c] + b;
    if c in a {
      HeadStops(a, rest, c);
      var n := |Head(a, c)| + 1;
      assert (a + rest)[n..] == a[n..] + rest;
      SplitCounts(a[n..], b, c);
    } else {
      HeadIs(a, rest, c);
      HeadIs(a, "", c);
      assert a + "" == a;
      assert (a + rest)[|a| + 1..] == b;
    }
  }

  lemma SplitMore(s: string, c: char)
    requires c in s
    ensures |Split(s, c)| >= 2
  {
    HeadStops(s, "", c);
    assert s + "" == s;
  }

  lemma {:induction false} SomeLength(addrs: seq<string>, defaultPort: nat)
    requires AddrHosts(addrs, defaultPort).Some?
    ensures |AddrHosts(addrs, defaultPort).value| == |addrs|
  {
    if addrs != [] {
      SomeLength(addrs[1..], defaultPort);
    }
  }

  lemma ShowCounts(h: Host)
    ensures |Split(Show(h), ',')| >= if ',' in h.name then 2 else 1
  {
    if ',' in h.name {
      SplitMore(Show(h), ',');
    }
  }

  /** A comma in a name makes one more address of it. */
  lemma {:induction false} CommasCount(hosts: seq<Host>)
    requires hosts != []
    ensures |Split(ShowAll(hosts), ',')| >= |hosts|
    ensures (exists i :: 0 <= i < |hosts| && ',' in hosts[i].name) ==> |Split(ShowAll(hosts), ',')| > |hosts|
  {
    hide Split, Show;
    ShowCounts(hosts[0]);
    if |hosts| > 1 {
      SplitCounts(Show(hosts[0]), ShowAll(hosts[1..]), ',');
      CommasCount(hosts[1..]);
    }
  }

  lemma {:induction false} NamesWithoutCommas(hosts: seq<Host>, defaultPort: nat)
    requires hosts != [] && forall i :: 0 <= i < |hosts| ==> hosts[i].port < 0x1_0000 && ',' !in hosts[i].name
    ensures ParseHosts(ShowAll(hosts), defaultPort) == Some(hosts) <==> AllPlain(hosts)
  {
    hide AddrHost, ParseHosts, Plain, Split;
    var h, s := hosts[0], ShowAll(hosts);
    var rest := s[|Show(h)|..];
    DigitsOnly(h.port);
    OneHost(h, defaultPort);
    NextHost(s, defaultPort);
    assert s == Show(h) + rest;
    HeadIs(Show(h), rest, ',');
    if |hosts| > 1 {
      assert rest[1..] == ShowAll(hosts[1..]);
      NamesWithoutCommas(hosts[1..], defaultPort);
      assert hosts == [h] + hosts[1..];
    } else {
      assert hosts == [h];
    }
  }

  /**
   A list of hosts that is printed and parsed comes back as it was, exactly if it is not empty and every
   name is not empty and has neither a colon nor a comma.
   */
  lemma HostsRoundTrip(hosts: seq<Host>, defaultPort: nat)
    requires forall i :: 0 <= i < |hosts| ==> hosts[i].port < 0x1_0000
    ensures ParseHosts(ShowAll(hosts), defaultPort) == Some(hosts) <==> hosts != [] && AllPlain(hosts)
  {
    if hosts == [] {
      assert Split("", ',') == [""];
    } else if exists i :: 0 <= i < |hosts| && ',' in hosts[i].name {
      CommasCount(hosts);
      if ParseHosts(ShowAll(hosts), defaultPort).Some? {
        SomeLength(Split(ShowAll(hosts), ','), defaultPort);
      }
    } else {
      NamesWithoutCommas(hosts, defaultPort);
    }
  }

  /** An address of two parts: a second part that is not a port is no error, the default port is used. */
  lemma PortOrDefault(name: string, text: string, defaultPort: nat)
    requires Plain(name) && Plain(text)
    ensures ParseHosts(name + (":" + text), defaultPort)
         == Some([Host(name, if ParsePort(text).Some? then ParsePort(text).value else defaultPort)])
  {
    hide ParsePort;
    var s := name + (":" + text);
    SplitOnce(name, text, ':');
    HeadIs(s, "", ',');
    assert s + "" == s;
    NextHost(s, defaultPort);
  }
}
