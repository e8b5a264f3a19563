/** SERVER_NAME and SERVER_PORT from a Host header or from the authority of the request's URI, and which of
    them the one host cache may share between listeners and between the two. */
module HostPort {
  import opened Options
  import opened EnvCache
  import opened EnvRuns

  /** `u16::from_str`. */
  function ParsePort(text: string): Option<nat> {
    var digits := if text != "" && text[0] == '+' then text[1..] else text;
    if digits != "" && AllDigits(digits) && Number(digits) <= 65535 then Some(Number(digits)) else None
  }

  predicate AllDigits(text: string) {
    forall i :: 0 <= i < |text| ==> '0' <= text[i] <= '9'
  }

  function Number(digits: string): nat
    requires AllDigits(digits)
  {
    if digits == "" then 0
    else 10 * Number(digits[..|digits| - 1]) + (digits[|digits| - 1] as nat - '0' as nat)
  }

  function Decimal(n: nat): string {
    if n < 10 then [('0' as nat + n) as char] else Decimal(n / 10) + [('0' as nat + n % 10) as char]
  }

  /** Port numbers are written out and read back. */
  lemma {:induction false} NumberOfDecimal(n: nat)
    ensures Decimal(n) != "" && AllDigits(Decimal(n)) && Number(Decimal(n)) == n
    decreases n
  {
    if n >= 10 {
      NumberOfDecimal(n / 10);
      var text, last := Decimal(n / 10), ('0' as nat + n % 10) as char;
      assert Decimal(n) == text + [last];
      assert (text + [last])[..|text|] == text;
    } else {
      assert Decimal(n)[..0] == "";
    }
  }

  /** So no two ports are written alike. */
  lemma DecimalDistinct(m: nat, n: nat)
    requires Decimal(m) == Decimal(n)
    ensures m == n
  {
    NumberOfDecimal(m);
    NumberOfDecimal(n);
  }

  /** A digit more makes the number ten times as large, and adds itself. */
  lemma {:induction false} NumberOn(digits: string, last: char)
    requires AllDigits(digits) && '0' <= last <= '9'
    ensures AllDigits(digits + [last]) && Number(digits + [last]) == 10 * Number(digits) + (last as nat - '0' as nat)
  {
    assert (digits + [last])[..|digits|] == digits;
  }

  /** What parses as a port: digits, after a plus sign or not, of a number of 16 bits. */
  lemma ParsesExactly(text: string, n: nat)
    ensures ParsePort(text) == Some(n) <==>
            n <= 65535 && exists digits: string ::
              (text == digits || text == "+" + digits) && digits != "" && AllDigits(digits) && Number(digits) == n
  {
    if ParsePort(text) == Some(n) {
      var digits := if text != "" && text[0] == '+' then text[1..] else text;
      assert text == digits || text == "+" + digits;
    }
    if digits: string :|
      (text == digits || text == "+" + digits) && digits != "" && AllDigits(digits) && Number(digits) == n
    {
      if text == "+" + digits {
        assert text[1..] == digits;
      } else {
        assert '0' <= text[0] <= '9';
      }
    }
  }

  /** Where `c` last occurs, or the length. */
  function LastOf(text: string, c: char): (i: nat)
    ensures i <= |text|
    ensures i < |text| ==> text[i] == c && forall k :: i < k < |text| ==> text[k] != c
    ensures i == |text| ==> forall k :: 0 <= k < |text| ==> text[k] != c
  {
    if text == "" then 0
    else
      var last := |text| - 1;
      if text[last] == c then last
      else
        var i := LastOf(text[..last], c);
        if i == last then |text| else i
  }

  /** Where `c` first occurs, or the length. */
  function FirstOf(text: string, c: char): (i: nat)
    ensures i <= |text|
    ensures i < |text| ==> text[i] == c
    ensures forall k :: 0 <= k < i ==> text[k] != c
  {
    if text == "" || text[0] == c then 0 else 1 + FirstOf(text[1..], c)
  }

  // ----- the Host header

  /** The header names its own port: a non-empty name, a colon, and something that parses. */
  predicate NamesPort(host: string) {
    var i := LastOf(host, ':');
    0 < i < |host| && ParsePort(host[i + 1..]).Some?
  }

  /** `split_host_port` */
  function SplitHostPort(host: string, defaultPort: nat): (string, nat) {
    var i := LastOf(host, ':');
    if NamesPort(host) then (host[..i], ParsePort(host[i + 1..]).value) else (host, defaultPort)
  }

  // ----- the URI's authority

  /** `Authority::host`: without the user information, up to the port; a bracketed address with its brackets. */
  function AuthorityHost(authority: string): string {
    var at := LastOf(authority, '@');
    UpToPort(if at < |authority| then authority[at + 1..] else authority)
  }

  function UpToPort(rest: string): string {
    if rest != "" && rest[0] == '[' && FirstOf(rest, ']') < |rest| then rest[..FirstOf(rest, ']') + 1]
    else rest[..FirstOf(rest, ':')]
  }

  /** `Authority::port_u16`, or else the local port. */
  function AuthorityPort(authority: string, defaultPort: nat): nat {
    var i := LastOf(authority, ':');
    if i < |authority| && ParsePort(authority[i + 1..]).Some? then ParsePort(authority[i + 1..]).value else defaultPort
  }

  // ----- what the cache may share

  /** The builders as `build_env` supplies them. */
  function BuildEnv(): Make {
    Make(
      (key: Str, src: Source) => if src.authority then AuthorityHost(key) else SplitHostPort(key, src.port).0,
      (key: Str, src: Source) =>
        Decimal(if src.authority then AuthorityPort(key, src.port) else SplitHostPort(key, src.port).1),
      (ip: Str) => ip,
      (value: Str) => value)
  }

  lemma PortsDiffer(key: string)
    requires !NamesPort(key)
    ensures !SameBuild(BuildEnv(), key, Source(1, false), Source(2, false))
  {
    var make := BuildEnv();
    assert Built(make, Hosts, key, Source(1, false))[1] == Decimal(1) == "1";
    assert Built(make, Hosts, key, Source(2, false))[1] == Decimal(2) == "2";
  }

  /** Among Host headers, one cached entry serves listeners on different ports correctly exactly when the header
      names its port: a bare host name is answered with the port of whoever came first. */
  lemma SharedHostNeedsPort(host: string)
    ensures Transparent(BuildEnv(), host, false) <==> NamesPort(host)
  {
    TransparentExactly(BuildEnv(), host, false);
    if NamesPort(host) {
      forall a: Source, b: Source | !a.authority && !b.authority ensures SameBuild(BuildEnv(), host, a, b) {
        assert SplitHostPort(host, a.port) == SplitHostPort(host, b.port);
      }
    } else {
      PortsDiffer(host);
      assert Among(false, Source(1, false)) && Among(false, Source(2, false));
    }
  }

  /** The Host header's name for the key is the authority's. */
  predicate SameName(key: string) {
    AuthorityHost(key) == SplitHostPort(key, 0).0
  }

  /** For a key that comes both ways, exactly when it names its port and the two derivations agree on its name. */
  lemma SharedKeyExactly(key: string)
    ensures Transparent(BuildEnv(), key, true) <==> NamesPort(key) && SameName(key)
  {
    var make := BuildEnv();
    TransparentExactly(make, key, true);
    if !NamesPort(key) {
      PortsDiffer(key);
      assert Among(true, Source(1, false)) && Among(true, Source(2, false));
    } else if !SameName(key) {
      var a, b := Source(0, true), Source(0, false);
      assert Built(make, Hosts, key, a)[0] == AuthorityHost(key);
      assert Built(make, Hosts, key, b)[0] == SplitHostPort(key, 0).0;
      assert Among(true, a) && Among(true, b) && !SameBuild(make, key, a, b);
    } else {
      forall a: Source, b: Source ensures SameBuild(make, key, a, b) {
        assert SplitHostPort(key, a.port) == SplitHostPort(key, b.port) == SplitHostPort(key, 0);
        assert AuthorityPort(key, a.port) == AuthorityPort(key, b.port) == SplitHostPort(key, 0).1;
      }
    }
  }

  /** User information is part of a Host header's name and not of an authority's: whoever comes first decides. */
  lemma UserInfoBreaksSharing()
    ensures NamesPort("u@h:80") && !Transparent(BuildEnv(), "u@h:80", true)
  {
    var key := "u@h:80";
    assert key[3] == ':' && LastOf(key, ':') == 3;
    assert key[4..] == "80" && "80"[..1] == "8" && "8"[..0] == "";
    assert Number("8") == 8 && Number("80") == 80;
    assert SplitHostPort(key, 0).0 == "u@h";
    assert key[1] == '@' && LastOf(key, '@') == 1 && key[2..] == "h:80";
    assert |AuthorityHost(key)| <= 1;
    SharedKeyExactly(key);
  }

  /** A name without user information, and either without colons or bracketed. */
  predicate Usual(name: string) {
    && name != "" && '@' !in name
    && if name[0] == '[' then FirstOf(name, ']') == |name| - 1 else ':' !in name
  }

  lemma LastIs(text: string, c: char, i: nat)
    requires i < |text| && text[i] == c && forall k :: i < k < |text| ==> text[k] != c
    ensures LastOf(text, c) == i
  {
  }

  lemma FirstIs(text: string, c: char, i: nat)
    requires i < |text| && text[i] == c && forall k :: 0 <= k < i ==> text[k] != c
    ensures FirstOf(text, c) == i
  {
  }

  lemma Parts(name: string, port: string)
    ensures var key := name + ":" + port;
      && |key| == |name| + 1 + |port| && key[|name|] == ':' && key[..|name|] == name && key[|name| + 1..] == port
      && (forall k :: 0 <= k < |name| ==> key[k] == name[k])
      && (forall k :: |name| < k < |key| ==> key[k] == port[k - |name| - 1])
  {
  }

  lemma UsualNamesPort(name: string, port: string)
    requires name != "" && ParsePort(port).Some?
    ensures NamesPort(name + ":" + port) && SplitHostPort(name + ":" + port, 0).0 == name
  {
    Parts(name, port);
    PortIsPlain(port);
    LastIs(name + ":" + port, ':', |name|);
  }

  /** The header is a name, a colon and a port. */
  predicate Named(host: string, name: string, port: string) {
    host == name + ":" + port && name != "" && ':' !in port && ParsePort(port).Some?
  }

  lemma NamedSplits(host: string, name: string, port: string, defaultPort: nat)
    requires Named(host, name, port)
    ensures NamesPort(host) && SplitHostPort(host, defaultPort) == (name, ParsePort(port).value)
  {
    Parts(name, port);
    LastIs(host, ':', |name|);
  }

  lemma NamesPortIsNamed(host: string) returns (name: string, port: string)
    requires NamesPort(host)
    ensures Named(host, name, port)
  {
    var i := LastOf(host, ':');
    name, port := host[..i], host[i + 1..];
    assert host == name + ":" + port;
  }

  /** A Host header `name:port` is its name and the number the port spells; any other is a name alone, on the local
      port. */
  lemma SplitExactly(host: string, defaultPort: nat)
    ensures forall name, port :: Named(host, name, port) ==>
              SplitHostPort(host, defaultPort) == (name, ParsePort(port).value)
    ensures (forall name, port :: !Named(host, name, port)) ==> SplitHostPort(host, defaultPort) == (host, defaultPort)
  {
    forall name, port | Named(host, name, port)
      ensures SplitHostPort(host, defaultPort) == (name, ParsePort(port).value)
    {
      NamedSplits(host, name, port, defaultPort);
    }
    if NamesPort(host) {
      var name, port := NamesPortIsNamed(host);
    }
  }

  /** SERVER_PORT for a usual key, however it came: the number the port spells, written out. */
  lemma ServerPort(name: string, port: string, src: Source)
    requires name != "" && ParsePort(port).Some?
    ensures BuildEnv().port(name + ":" + port, src) == Decimal(ParsePort(port).value)
    ensures var n := ParsePort(port).value; AllDigits(Decimal(n)) && Number(Decimal(n)) == n
  {
    Parts(name, port);
    PortIsPlain(port);
    LastIs(name + ":" + port, ':', |name|);
    NumberOfDecimal(ParsePort(port).value);
  }

  lemma NoUser(name: string, port: string)
    requires '@' !in name && ParsePort(port).Some?
    ensures AuthorityHost(name + ":" + port) == UpToPort(name + ":" + port)
  {
    Parts(name, port);
    PortIsPlain(port);
  }

  lemma BracketHost(name: string, port: string)
    requires name != "" && name[0] == '[' && FirstOf(name, ']') == |name| - 1
    ensures UpToPort(name + ":" + port) == name
  {
    Parts(name, port);
    FirstIs(name + ":" + port, ']', |name| - 1);
  }

  lemma PlainHost(name: string, port: string)
    requires name != "" && name[0] != '[' && ':' !in name
    ensures UpToPort(name + ":" + port) == name
  {
    Parts(name, port);
    FirstIs(name + ":" + port, ':', |name|);
  }

  /** The usual keys are shared safely. */
  lemma UsualKeysShare(name: string, port: string)
    requires Usual(name) && ParsePort(port).Some?
    ensures Transparent(BuildEnv(), name + ":" + port, true)
  {
    UsualNamesPort(name, port);
    NoUser(name, port);
    if name[0] == '[' {
      BracketHost(name, port);
    } else {
      PlainHost(name, port);
    }
    SharedKeyExactly(name + ":" + port);
  }

  lemma PortIsPlain(port: string)
    requires ParsePort(port).Some?
    ensures ':' !in port && '@' !in port && ']' !in port
  {
    forall k | 0 <= k < |port| ensures port[k] != ':' && port[k] != '@' && port[k] != ']' {
      assert port[0] == '+' && k > 0 ==> port[k] == port[1..][k - 1];
    }
  }
}
