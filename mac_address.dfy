/**
 * The MAC-address check every host constructor performs:
 * re.match(r'^([0-9A-Fa-f]{2}:){5}[0-9A-Fa-f]{2}$', mac), written out by hand.
 */
module MacAddress {

  /** One character of the class [0-9A-Fa-f]. */
  predicate IsHexDigit(c: char) {
    ('0' <= c <= '9') || ('A' <= c <= 'F') || ('a' <= c <= 'f')
  }

  /** Six groups of two hex digits separated by ':' and nothing else. */
  predicate IsMacBody(s: string) {
    |s| == 17 &&
    forall k :: 0 <= k < 17 ==> if k % 3 == 2 then s[k] == ':' else IsHexDigit(s[k])
  }

  /**
   * What the pattern accepts. Python's `$` matches at the end of the string and also
   * just before a newline that ends the string, so one trailing "\n" gets through.
   */
  predicate ValidMac(s: string)
    ensures ValidMac(s) <==> exists g :: |g| == 6 && (forall j :: 0 <= j < 6 ==> IsHexOctet(g[j])) &&
                                        (s == Render(g) || s == Render(g) + "\n")
  {
    MacShape(s);
    IsMacBody(s) || (|s| == 18 && s[17] == '\n' && IsMacBody(s[..17]))
  }

  /** The broadcast sentinel used by the VLAN switch and its hosts. */
  const BroadcastMac: string := "FF:FF:FF:FF:FF:FF"

  /** One group of a MAC address, as its two characters. */
  datatype Octet = Octet(hi: char, lo: char)

  predicate IsHexOctet(o: Octet) {
    IsHexDigit(o.hi) && IsHexDigit(o.lo)
  }

  /** The conventional colon-separated rendering of a list of groups. */
  function Render(g: seq<Octet>): (s: string)
    requires |g| >= 1
    ensures |s| == 3 * |g| - 1
    decreases |g|
  {
    if |g| == 1 then [g[0].hi, g[0].lo]
    else [g[0].hi, g[0].lo, ':'] + Render(g[1..])
  }

  /** The six groups of a string of MAC shape. */
  function Octets(s: string): (g: seq<Octet>)
    requires |s| == 17
    ensures |g| == 6
  {
    [Octet(s[0], s[1]), Octet(s[3], s[4]), Octet(s[6], s[7]),
     Octet(s[9], s[10]), Octet(s[12], s[13]), Octet(s[15], s[16])]
  }

  /** Character `k` of a rendering: a separator, or a digit of group k / 3. */
  lemma {:induction false} RenderAt(g: seq<Octet>, k: int)
    requires |g| >= 1 && 0 <= k < 3 * |g| - 1
    ensures Render(g)[k] == if k % 3 == 2 then ':' else if k % 3 == 0 then g[k / 3].hi else g[k / 3].lo
    decreases |g|
  {
    if |g| > 1 && k >= 3 {
      RenderAt(g[1..], k - 3);
      assert Render(g)[k] == Render(g[1..])[k - 3];
      assert (k - 3) / 3 == k / 3 - 1 && (k - 3) % 3 == k % 3;
    }
  }

  /** A rendering of six hex groups has the shape the pattern describes. */
  lemma RenderedIsBody(g: seq<Octet>)
    requires |g| == 6 && forall j :: 0 <= j < 6 ==> IsHexOctet(g[j])
    ensures IsMacBody(Render(g))
  {
    forall k | 0 <= k < 17
      ensures if k % 3 == 2 then Render(g)[k] == ':' else IsHexDigit(Render(g)[k])
    {
      RenderAt(g, k);
    }
  }

  /** Every rendering of six hex groups passes the check. */
  lemma RenderedIsValid(g: seq<Octet>)
    requires |g| == 6 && forall j :: 0 <= j < 6 ==> IsHexOctet(g[j])
    ensures IsMacBody(Render(g)) && ValidMac(Render(g))
  {
    RenderedIsBody(g);
  }

  /** Every string the check accepts without a newline is such a rendering, group by group. */
  lemma ValidIsRendered(s: string)
    requires IsMacBody(s)
    ensures Render(Octets(s)) == s
    ensures forall j :: 0 <= j < 6 ==> IsHexOctet(Octets(s)[j])
  {
    var g := Octets(s);
    forall k | 0 <= k < 17
      ensures Render(g)[k] == s[k]
    {
      RenderAt(g, k);
    }
    assert forall j :: 0 <= j < 6 ==> IsHexDigit(s[3 * j]) && IsHexDigit(s[3 * j + 1]) by {
      forall j | 0 <= j < 6
        ensures IsHexDigit(s[3 * j]) && IsHexDigit(s[3 * j + 1])
      {
        assert (3 * j) % 3 == 0 && (3 * j + 1) % 3 == 1;
      }
    }
  }

  /** The two forms the pattern accepts are the renderings of six hex groups, bare or with a newline. */
  lemma MacShape(s: string)
    ensures (IsMacBody(s) || (|s| == 18 && s[17] == '\n' && IsMacBody(s[..17]))) <==>
            exists g :: |g| == 6 && (forall j :: 0 <= j < 6 ==> IsHexOctet(g[j])) &&
                        (s == Render(g) || s == Render(g) + "\n")
  {
    if IsMacBody(s) {
      ValidIsRendered(s);
      var g := Octets(s);
      assert s == Render(g);
    } else if |s| == 18 && s[17] == '\n' && IsMacBody(s[..17]) {
      ValidIsRendered(s[..17]);
      var g := Octets(s[..17]);
      assert s == Render(g) + "\n";
    }
    forall g | |g| == 6 && (forall j :: 0 <= j < 6 ==> IsHexOctet(g[j])) && (s == Render(g) || s == Render(g) + "\n")
      ensures IsMacBody(s) || (|s| == 18 && s[17] == '\n' && IsMacBody(s[..17]))
    {
      RenderedIsBody(g);
      if s != Render(g) {
        assert s[..17] == Render(g);
      }
    }
  }

  /** Reading the groups back from a rendering gives the groups. */
  lemma OctetsOfRender(g: seq<Octet>)
    requires |g| == 6
    ensures Octets(Render(g)) == g
  {
    var s := Render(g);
    forall j | 0 <= j < 6
      ensures Octets(s)[j] == g[j]
    {
      RenderAt(g, 3 * j);
      RenderAt(g, 3 * j + 1);
    }
  }

  /** The broadcast sentinel is itself a well-formed address. */
  lemma BroadcastIsValid()
    ensures ValidMac(BroadcastMac)
  {
    var g := Octets(BroadcastMac);
    assert forall j :: 0 <= j < 6 ==> IsHexOctet(g[j]);
    RenderedIsValid(g);
    assert Render(g) == BroadcastMac by {
      forall k | 0 <= k < 17
        ensures Render(g)[k] == BroadcastMac[k]
      {
        RenderAt(g, k);
      }
    }
  }

  /**
   * The check at work: one trailing newline is tolerated, lower-case digits are accepted,
   * and a short group or another separator is refused.
   */
  lemma CheckExamples()
    ensures ValidMac("00:00:00:00:00:01\n") && !IsMacBody("00:00:00:00:00:01\n")
    ensures ValidMac("0a:1b:2c:3d:4e:5f")
    ensures !ValidMac("00:00:00:00:00:1") && !ValidMac("00-00-00-00-00-01")
  {
    var s := "00:00:00:00:00:01\n";
    assert s[..17] == "00:00:00:00:00:01";
    assert IsMacBody(s[..17]) && |s| == 18 && s[17] == '\n';
    assert IsMacBody("0a:1b:2c:3d:4e:5f");
    assert |"00:00:00:00:00:1"| == 16;
    assert !IsMacBody("00-00-00-00-00-01") by {
      assert "00-00-00-00-00-01"[2] != ':';
    }
    assert |"00-00-00-00-00-01"| == 17;
  }
}
