/** `port2sortable` and `ipaddr2sortable`: strings whose plain string order
    is the numeric order of the port or IPv4 address they encode, used as
    the `_order` of table rows. Both report scripts that print tables
    carry identical copies. */
module SortKeys {
  import opened Wrappers
  import opened Text
  import opened Tables

  // ---------------------------------------------------------------------
  // ports

  /** `int(v)`: a number is kept (a float loses its fraction), a string is
      parsed; `None` where Python raises `ValueError`. A dict has no
      `int()` and never reaches here. */
  function PortNumber(v: Cell): Option<int>
    requires !v.Mapping?
  {
    match v
    case Int(i) => Some(i)
    case Decimal(t) => Some(if t >= 0 then t / 10 else 0 - (0 - t) / 10)
    case Str(s) => ParseInt(s)
  }

  /** `port2sortable(v)`: `f"{int(v):06}"`, or `"000000"` when `int(v)`
      fails. */
  function PortSortable(v: Cell): (r: string)
    requires !v.Mapping?
    ensures PortNumber(v).None? ==> r == "000000"
  {
    var zero := ZeroPad(0, 6);
    assert zero == "000000";
    ZeroPad6(PortNumber(v).GetOr(0))
  }

  lemma {:induction false} NatToStringLength(n: nat, k: nat)
    requires k >= 1 && n < Pow(10, k)
    ensures |NatToString(n)| <= k
    decreases n
  {
    if n >= 10 {
      assert Pow(10, k) == 10 * Pow(10, k - 1);
      NatToStringLength(n / 10, k - 1);
    }
  }

  /** A port from 0 to 999999 becomes exactly six decimal digits that
      denote it. */
  lemma PortSortableDigits(n: int)
    requires 0 <= n <= 999999
    ensures |PortSortable(Int(n))| == 6
    ensures AllDigits(PortSortable(Int(n)), 10) && ValueOf(PortSortable(Int(n)), 10) == n
  {
    assert Pow(10, 6) == 1000000;
    NatToStringLength(n, 6);
  }

  /** For ports from 0 to 999999, comparing the encodings as strings is
      comparing the ports as numbers: "000009" comes before "000080". */
  lemma PortSortableOrder(a: int, b: int)
    requires 0 <= a <= 999999 && 0 <= b <= 999999
    ensures Less(PortSortable(Int(a)), PortSortable(Int(b))) <==> a < b
  {
    PortSortableDigits(a);
    PortSortableDigits(b);
    LessIsNumeric(PortSortable(Int(a)), PortSortable(Int(b)), 10);
  }

  /** A port written as text encodes like the same port as a number. */
  lemma PortSortableOfText(n: int)
    ensures PortSortable(Str(IntToString(n))) == PortSortable(Int(n))
  {
    ParseIntToString(n);
  }

  // ---------------------------------------------------------------------
  // IPv4 addresses

  /** One part of a dotted-decimal IPv4 address: decimal digits without a
      leading zero, at most 255. */
  function ParseOctet(s: string): (r: Option<nat>)
    ensures r.Some? ==> r.value < 256
  {
    if |s| >= 1 && AllDigits(s, 10) && (|s| == 1 || s[0] != '0') && ValueOf(s, 10) <= 255
    then Some(ValueOf(s, 10))
    else None
  }

  predicate IsQuad(q: seq<nat>)
  {
    |q| == 4 && forall i :: 0 <= i < 4 ==> q[i] < 256
  }

  /** `socket.inet_aton(s)` on an address in dotted-decimal form: its four
      bytes, or `None` for any text that is not a dotted-decimal address.
      The shorthand (`10.1`), octal (`010.0.0.1`) and hexadecimal
      (`0xa.0.0.1`) forms that `inet_aton` also accepts give `None` too. */
  function Aton(s: string): (r: Option<seq<nat>>)
    ensures r.Some? ==> IsQuad(r.value)
  {
    var parts := Split(s, '.');
    if |parts| == 4 && forall i :: 0 <= i < 4 ==> ParseOctet(parts[i]).Some?
    then Some(seq(4, i requires 0 <= i < 4 => ParseOctet(parts[i]).value))
    else None
  }

  function Hex2(b: nat): (r: string)
    requires b < 256
    ensures |r| == 2 && AllDigits(r, 16) && ValueOf(r, 16) == b
  {
    var r := [HexDigit(b / 16), HexDigit(b % 16)];
    assert r[..1] == [HexDigit(b / 16)] && r[..1][..0] == [];
    assert ValueOf(r[..1], 16) == b / 16;
    r
  }

  /** `.hex()` of the four bytes: eight lower-case hex digits. */
  function HexAddress(q: seq<nat>): string
    requires IsQuad(q)
  {
    Hex2(q[0]) + Hex2(q[1]) + Hex2(q[2]) + Hex2(q[3])
  }

  /** The address as one 32-bit number, first byte most significant. */
  function Address(q: seq<nat>): nat
    requires IsQuad(q)
  {
    ((q[0] * 256 + q[1]) * 256 + q[2]) * 256 + q[3]
  }

  /** `ipaddr2sortable(s)`: the part before the first `/` as eight hex
      digits (`"00000000"` when it is not a dotted-decimal IPv4 address), then, when
      there is a `/`, a `/` and the sortable form of the part after it. */
  function IpSortable(s: string): (r: string)
    ensures '/' !in s && Aton(s).None? ==> r == "00000000"
  {
    var parts := Split(s, '/');
    var addr := match Aton(parts[0])
      case Some(q) => HexAddress(q)
      case None => "00000000";
    if |parts| > 1 then addr + "/" + PortSortable(Str(parts[1])) else addr
  }

  /** Appending digits to a digit string shifts its value. */
  lemma {:induction false} ValueOfAppend(s: string, t: string, base: nat)
    ensures ValueOf(s + t, base) == ValueOf(s, base) * Pow(base, |t|) + ValueOf(t, base)
    decreases |t|
  {
    if |t| == 0 {
      assert s + t == s;
    } else {
      var n := |t|;
      assert (s + t)[..|s| + n - 1] == s + t[..n - 1];
      ValueOfAppend(s, t[..n - 1], base);
      var a, p, b, d := ValueOf(s, base), Pow(base, n - 1), ValueOf(t[..n - 1], base), DigitValue(t[n - 1]);
      assert ValueOf(s + t, base) == ValueOf(s + t[..n - 1], base) * base + d;
      assert ValueOf(t, base) == b * base + d;
      assert Pow(base, n) == base * p;
      Distribute(a, p, b, base);
    }
  }

  lemma Distribute(a: int, p: int, b: int, base: int)
    ensures (a * p + b) * base == a * (base * p) + b * base
  {
  }

  /** The hex form is eight hex digits denoting the 32-bit address. */
  lemma HexAddressValue(q: seq<nat>)
    requires IsQuad(q)
    ensures |HexAddress(q)| == 8 && AllDigits(HexAddress(q), 16)
    ensures ValueOf(HexAddress(q), 16) == Address(q)
  {
    var a, b, c, d := Hex2(q[0]), Hex2(q[1]), Hex2(q[2]), Hex2(q[3]);
    assert Pow(16, 2) == 256;
    ValueOfAppend(a, b, 16);
    ValueOfAppend(a + b, c, 16);
    ValueOfAppend(a + b + c, d, 16);
  }

  /** `str(n)` for each byte, joined with dots. */
  function Dotted(q: seq<nat>): string
    requires IsQuad(q)
  {
    Join([NatToString(q[0]), NatToString(q[1]), NatToString(q[2]), NatToString(q[3])], ".")
  }

  lemma ParseOctetOfNat(n: nat)
    requires n < 256
    ensures ParseOctet(NatToString(n)) == Some(n)
  {
    var s := NatToString(n);
    if |s| > 1 {
      assert n >= 10;
    }
  }

  lemma NoDotInDigits(s: string)
    requires AllDigits(s, 10)
    ensures '.' !in s && '/' !in s
  {
    forall i | 0 <= i < |s| ensures s[i] != '.' && s[i] != '/' {
      assert IsHexDigit(s[i]);
    }
  }

  lemma {:induction false} JoinAvoids(parts: seq<string>, sep: string, c: char)
    requires c !in sep && forall i :: 0 <= i < |parts| ==> c !in parts[i]
    ensures c !in Join(parts, sep)
    decreases |parts|
  {
    if |parts| > 1 {
      JoinAvoids(parts[1..], sep, c);
    }
  }

  /** Every address written in dotted-decimal form parses back to its
      bytes. */
  lemma AtonDotted(q: seq<nat>)
    requires IsQuad(q)
    ensures Aton(Dotted(q)) == Some(q)
  {
    var parts := [NatToString(q[0]), NatToString(q[1]), NatToString(q[2]), NatToString(q[3])];
    forall i | 0 <= i < 4 ensures '.' !in parts[i] && ParseOctet(parts[i]) == Some(q[i]) {
      NoDotInDigits(parts[i]);
      ParseOctetOfNat(q[i]);
    }
    SplitJoin(parts, '.');
    assert Split(Dotted(q), '.') == parts;
    var r := Aton(Dotted(q));
    assert r.Some?;
    assert r.value == q by {
      assert forall i :: 0 <= i < 4 ==> r.value[i] == q[i];
    }
  }

  lemma NoSlashInDotted(q: seq<nat>)
    requires IsQuad(q)
    ensures '/' !in Dotted(q)
  {
    var parts := [NatToString(q[0]), NatToString(q[1]), NatToString(q[2]), NatToString(q[3])];
    forall i | 0 <= i < 4 ensures '/' !in parts[i] {
      NoDotInDigits(parts[i]);
    }
    JoinAvoids(parts, ".", '/');
  }

  /** An address sorts by its 32-bit value: `ipaddr2sortable` of two
      dotted-decimal addresses compare as strings the way the addresses
      compare as numbers ("9.0.0.1" before "10.0.0.1"). */
  lemma IpSortableOrder(p: seq<nat>, q: seq<nat>)
    requires IsQuad(p) && IsQuad(q)
    ensures IpSortable(Dotted(p)) == HexAddress(p)
    ensures Less(IpSortable(Dotted(p)), IpSortable(Dotted(q))) <==> Address(p) < Address(q)
  {
    IpSortableOfAddress(p);
    IpSortableOfAddress(q);
    HexAddressValue(p);
    HexAddressValue(q);
    LessIsNumeric(HexAddress(p), HexAddress(q), 16);
  }

  lemma IpSortableOfAddress(q: seq<nat>)
    requires IsQuad(q)
    ensures IpSortable(Dotted(q)) == HexAddress(q)
  {
    NoSlashInDotted(q);
    AtonDotted(q);
  }

  /** A CIDR block `a.b.c.d/n` becomes the address's hex form, a slash and
      the prefix length as six digits. */
  lemma IpSortableOfCidr(q: seq<nat>, n: nat)
    requires IsQuad(q)
    ensures IpSortable(Dotted(q) + "/" + NatToString(n)) == HexAddress(q) + "/" + PortSortable(Int(n))
  {
    var s := Dotted(q) + "/" + NatToString(n);
    NoSlashInDotted(q);
    NoDotInDigits(NatToString(n));
    IndexOfAfterPrefix(Dotted(q), '/', NatToString(n));
    assert s == Dotted(q) + ['/'] + NatToString(n);
    assert s[..|Dotted(q)|] == Dotted(q) && s[|Dotted(q)| + 1..] == NatToString(n);
    assert Split(s, '/') == [Dotted(q)] + Split(NatToString(n), '/');
    AtonDotted(q);
    assert IntToString(n) == NatToString(n);
    PortSortableOfText(n);
  }
}
