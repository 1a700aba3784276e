/** The comma-separated speed lists of src/intfd_ovsdb_if.c: splitting, parsing
    into a ten-entry buffer, checking against the hardware list, and printing. */
module SpeedText {

  const MAX_SPEEDS := 10
  const INT_MAX := 0x7FFF_FFFF
  const SPEED_STRING_SIZE := 200

  type Speed = x: nat | x <= INT_MAX

  const ZEROS: seq<Speed> := [0, 0, 0, 0, 0, 0, 0, 0, 0, 0]

  /* ---------- decimal numbers ---------- */

  predicate IsDigit(c: char) { '0' <= c <= '9' }

  predicate IsNumber(t: string) { forall i :: 0 <= i < |t| ==> IsDigit(t[i]) }

  function DigitValue(c: char): nat
    requires IsDigit(c)
  {
    c as int - '0' as int
  }

  function Value(t: string): nat
    requires IsNumber(t)
  {
    if t == "" then 0 else 10 * Value(t[..|t| - 1]) + DigitValue(t[|t| - 1])
  }

  /** atoi on digits; beyond the int range, where C leaves it undefined, it saturates. */
  function Atoi(t: string): Speed
    requires IsNumber(t)
  {
    if Value(t) <= INT_MAX then Value(t) else INT_MAX
  }

  function Decimal(n: nat): string {
    if n < 10 then [('0' as int + n) as char]
    else Decimal(n / 10) + [('0' as int + n % 10) as char]
  }

  lemma {:induction false} DecimalRoundTrip(n: nat)
    ensures Decimal(n) != "" && IsNumber(Decimal(n)) && Value(Decimal(n)) == n
  {
    if n < 10 {
      assert Decimal(n)[..0] == "";
    } else {
      DecimalRoundTrip(n / 10);
      assert Decimal(n)[..|Decimal(n)| - 1] == Decimal(n / 10);
    }
  }

  function Pow10(k: nat): nat { if k == 0 then 1 else 10 * Pow10(k - 1) }

  lemma {:induction false} DecimalLength(n: nat, k: nat)
    requires 1 <= k && n < Pow10(k)
    ensures 1 <= |Decimal(n)| <= k
  {
    if n >= 10 {
      assert Pow10(1) == 10 * Pow10(0);
      DecimalLength(n / 10, k - 1);
    }
  }

  lemma SpeedLength(x: Speed)
    ensures 1 <= |Decimal(x)| <= 10
  {
    assert Pow10(5) == 100_000;
    assert Pow10(10) == 10_000_000_000;
    DecimalLength(x, 10);
  }

  /* ---------- splitting at commas ---------- */

  /** Length of the comma-free prefix. */
  function TokenEnd(s: string): (k: nat)
    ensures k <= |s| && ',' !in s[..k] && (k < |s| ==> s[k] == ',')
  {
    if s == "" || s[0] == ',' then 0
    else
      assert forall k :: 0 <= k < |s| ==> s[..k + 1] == [s[0]] + s[1..][..k];
      1 + TokenEnd(s[1..])
  }

  /** What successive strtok(",") calls return: the maximal non-empty comma-free runs. */
  function Tokens(s: string): seq<string>
    decreases |s|
  {
    if s == "" then []
    else if s[0] == ',' then Tokens(s[1..])
    else [s[..TokenEnd(s)]] + Tokens(s[TokenEnd(s)..])
  }

  lemma {:induction false} TokensNonEmpty(s: string)
    ensures forall t :: t in Tokens(s) ==> t != ""
    decreases |s|
  {
    if s != "" {
      TokensNonEmpty(if s[0] == ',' then s[1..] else s[TokenEnd(s)..]);
    }
  }

  lemma {:induction false} TokenEndBeforeComma(a: string, b: string)
    ensures TokenEnd(a + "," + b) == TokenEnd(a)
  {
    var s := a + "," + b;
    if a != "" && a[0] != ',' {
      assert s[1..] == a[1..] + "," + b;
      TokenEndBeforeComma(a[1..], b);
    }
  }

  /** A comma only separates: leading, trailing and doubled commas change nothing. */
  lemma {:induction false} TokensAtComma(a: string, b: string)
    ensures Tokens(a + "," + b) == Tokens(a) + Tokens(b)
    decreases |a|
  {
    var s := a + "," + b;
    if a == "" {
      assert s[1..] == b;
    } else if a[0] == ',' {
      assert s[1..] == a[1..] + "," + b;
      TokensAtComma(a[1..], b);
    } else {
      TokenEndBeforeComma(a, b);
      var k := TokenEnd(a);
      assert s[..k] == a[..k] && s[k..] == a[k..] + "," + b;
      TokensAtComma(a[k..], b);
    }
  }

  lemma {:induction false} SingleToken(t: string)
    requires t != "" && ',' !in t
    ensures Tokens(t) == [t]
  {
    assert TokenEnd(t) == |t|;
    assert t[..|t|] == t && t[|t|..] == "";
  }

  /* ---------- parsing into a buffer ---------- */

  /** The tokens that are stored before the first one that is refused. */
  function Accepted(tokens: seq<string>): (k: nat)
    ensures k <= |tokens| && k <= MAX_SPEEDS
    ensures forall i :: 0 <= i < k ==> IsNumber(tokens[i])
    ensures k < |tokens| ==> k == MAX_SPEEDS || !IsNumber(tokens[k])
  {
    AcceptedFrom(tokens, 0)
  }

  function AcceptedFrom(tokens: seq<string>, i: nat): (k: nat)
    requires i <= |tokens| && i <= MAX_SPEEDS
    requires forall j :: 0 <= j < i ==> IsNumber(tokens[j])
    ensures i <= k <= |tokens| && k <= MAX_SPEEDS
    ensures forall j :: 0 <= j < k ==> IsNumber(tokens[j])
    ensures k < |tokens| ==> k == MAX_SPEEDS || !IsNumber(tokens[k])
    decreases |tokens| - i
  {
    if i == |tokens| || i >= MAX_SPEEDS || !IsNumber(tokens[i]) then i else AcceptedFrom(tokens, i + 1)
  }

  function Numbers(tokens: seq<string>): (r: seq<Speed>)
    requires forall i :: 0 <= i < |tokens| ==> IsNumber(tokens[i])
    ensures |r| == |tokens| && forall i :: 0 <= i < |r| ==> r[i] == Atoi(tokens[i])
  {
    seq(|tokens|, i requires 0 <= i < |tokens| => Atoi(tokens[i]))
  }

  /** The list a text denotes, if it is a well-formed list of at most ten numbers. */
  predicate WellFormed(text: string) {
    var ts := Tokens(text);
    |ts| <= MAX_SPEEDS && forall i :: 0 <= i < |ts| ==> IsNumber(ts[i])
  }

  function SpeedList(text: string): seq<Speed>
    requires WellFormed(text)
  {
    Numbers(Tokens(text))
  }

  function ParseCount(text: string): (n: int)
    ensures -1 <= n <= MAX_SPEEDS
  {
    if WellFormed(text) then |Tokens(text)| else -1
  }

  /** The buffer afterwards: accepted numbers in front, the rest as it was. */
  function ParseBuffer(text: string, before: seq<Speed>): (r: seq<Speed>)
    requires |before| == MAX_SPEEDS
    ensures |r| == MAX_SPEEDS
  {
    var k := Accepted(Tokens(text));
    Numbers(Tokens(text)[..k]) + before[k..]
  }

  lemma ParsedPrefix(text: string, before: seq<Speed>)
    requires |before| == MAX_SPEEDS && WellFormed(text)
    ensures ParseBuffer(text, before)[..ParseCount(text)] == SpeedList(text)
  {
    var ts := Tokens(text);
    assert Accepted(ts) == |ts|;
    assert ts[..|ts|] == ts;
  }

  method ParseSpeeds(text: string, speeds: array<Speed>) returns (n: int)
    requires speeds.Length == MAX_SPEEDS
    modifies speeds
    ensures n == ParseCount(text)
    ensures speeds[..] == ParseBuffer(text, old(speeds[..]))
  {
    var tokens := Tokens(text);
    var i := 0;
    ghost var before := speeds[..];
    while i < |tokens|
      invariant 0 <= i <= |tokens| && i <= MAX_SPEEDS
      invariant forall j :: 0 <= j < i ==> IsNumber(tokens[j]) && speeds[j] == Atoi(tokens[j])
      invariant forall j :: i <= j < MAX_SPEEDS ==> speeds[j] == before[j]
      invariant Accepted(tokens) == AcceptedFrom(tokens, i)
    {
      if i >= MAX_SPEEDS || !IsNumber(tokens[i]) {
        assert Accepted(tokens) == i;
        assert speeds[..] == ParseBuffer(text, before);
        return -1;
      }
      speeds[i] := Atoi(tokens[i]);
      i := i + 1;
    }
    assert Accepted(tokens) == i;
    assert speeds[..] == ParseBuffer(text, before);
    n := i;
  }

  /* ---------- the user's list against the hardware list ---------- */

  /** Every speed the user asked for is one the hardware list offers, and there are
      no more of them than the hardware list has entries. */
  predicate Supported(text: string, hwText: string) {
    && WellFormed(text)
    && WellFormed(hwText)
    && 1 <= |Tokens(text)| <= |Tokens(hwText)|
    && forall x :: x in SpeedList(text) ==> x in SpeedList(hwText)
  }

  function UserSpeedCount(text: string, hwText: string): (n: int)
    ensures n > 0 <==> Supported(text, hwText)
    ensures n == 0 <==> Tokens(text) == []
    ensures n > 0 ==> n == |Tokens(text)| <= MAX_SPEEDS
    ensures -1 <= n
  {
    if Tokens(text) == [] then 0 else if Supported(text, hwText) then |Tokens(text)| else -1
  }

  /** The speeds part of intfd_parse_user_cfg: clear, parse, compare with the hardware list. */
  method CheckUserSpeeds(text: string, hwText: string, speeds: array<Speed>) returns (n: int)
    requires speeds.Length == MAX_SPEEDS
    modifies speeds
    ensures n == UserSpeedCount(text, hwText)
    ensures speeds[..] == ParseBuffer(text, ZEROS)
  {
    hide SpeedList, ParseBuffer, Tokens;
    forall i | 0 <= i < MAX_SPEEDS { speeds[i] := 0; }
    assert speeds[..] == ZEROS;
    n := ParseSpeeds(text, speeds);
    if n > 0 {
      var hw := new Speed[MAX_SPEEDS];
      ghost var junk := hw[..];
      var m := ParseSpeeds(hwText, hw);
      if n <= m {
        ParsedPrefix(text, ZEROS);
        ParsedPrefix(hwText, junk);
        assert forall k :: 0 <= k < n ==> speeds[k] == SpeedList(text)[k];
        assert hw[..m] == SpeedList(hwText);
        var i := 0;
        while i < n
          invariant 0 <= i <= n
          invariant forall k :: 0 <= k < i ==> speeds[k] in hw[..m]
        {
          var j, found := 0, false;
          while j < m
            invariant 0 <= j <= m
            invariant !found && speeds[i] !in hw[..j]
          {
            if speeds[i] == hw[j] {
              found := true;
              break;
            }
            j := j + 1;
          }
          if !found {
            assert SpeedList(text)[i] !in SpeedList(hwText);
            return -1;
          }
          assert speeds[i] in hw[..m];
          i := i + 1;
        }
      } else {
        n := -1;
      }
    }
  }

  /* ---------- printing ---------- */

  /** The text written for hw_intf_config:speeds. */
  function Join(speeds: seq<Speed>): string
    requires speeds != []
  {
    if |speeds| == 1 then Decimal(speeds[0])
    else Join(speeds[..|speeds| - 1]) + "," + Decimal(speeds[|speeds| - 1])
  }

  lemma {:induction false} TokensOfJoin(speeds: seq<Speed>)
    requires speeds != []
    ensures |Tokens(Join(speeds))| == |speeds|
    ensures forall i :: 0 <= i < |speeds| ==> Tokens(Join(speeds))[i] == Decimal(speeds[i])
  {
    var last := speeds[|speeds| - 1];
    DecimalRoundTrip(last);
    SingleToken(Decimal(last));
    if |speeds| > 1 {
      TokensOfJoin(speeds[..|speeds| - 1]);
      TokensAtComma(Join(speeds[..|speeds| - 1]), Decimal(last));
    }
  }

  /** Whatever is published parses back to the same list, and is accepted by a
      hardware list that offers those speeds. */
  lemma {:induction false} SpeedTextRoundTrip(speeds: seq<Speed>)
    requires 1 <= |speeds| <= MAX_SPEEDS
    ensures WellFormed(Join(speeds)) && SpeedList(Join(speeds)) == speeds
    ensures ParseCount(Join(speeds)) == |speeds|
  {
    TokensOfJoin(speeds);
    forall i | 0 <= i < |speeds|
      ensures IsNumber(Tokens(Join(speeds))[i]) && Atoi(Tokens(Join(speeds))[i]) == speeds[i]
    {
      DecimalRoundTrip(speeds[i]);
    }
  }

  lemma {:induction false} JoinLength(speeds: seq<Speed>)
    requires 1 <= |speeds|
    ensures |Join(speeds)| <= 11 * |speeds| - 1
  {
    SpeedLength(speeds[|speeds| - 1]);
    if |speeds| > 1 {
      JoinLength(speeds[..|speeds| - 1]);
    }
  }

  /** sprintf(buffer + at, text): the text and its terminator must fit. */
  method Sprintf(buffer: array<char>, at: nat, text: string)
    requires at + |text| + 1 <= buffer.Length
    modifies buffer
    ensures buffer[..at] == old(buffer[..at])
    ensures buffer[at..at + |text|] == text && buffer[at + |text|] == '\0'
  {
    forall i | 0 <= i < |text| { buffer[at + i] := text[i]; }
    buffer[at + |text|] := '\0';
  }

  /** The speeds part of set_intf_hw_config_in_db, through its 200-byte buffer. */
  method PrintSpeeds(speeds: seq<Speed>, n: int) returns (text: string)
    requires 1 <= n <= |speeds| && n <= MAX_SPEEDS
    ensures text == Join(speeds[..n])
    ensures |text| + 1 <= SPEED_STRING_SIZE
  {
    var buffer := new char[SPEED_STRING_SIZE];
    SpeedLength(speeds[0]);
    Sprintf(buffer, 0, Decimal(speeds[0]));
    var len := |Decimal(speeds[0])|;
    assert speeds[..1] == [speeds[0]];
    assert buffer[..len] == Join(speeds[..1]);
    var i := 1;
    while i < n
      invariant 1 <= i <= n
      invariant 0 <= len < SPEED_STRING_SIZE && buffer[..len] == Join(speeds[..i])
      invariant buffer[len] == '\0'
    {
      JoinLength(speeds[..i]);
      SpeedLength(speeds[i]);
      var piece := "," + Decimal(speeds[i]);
      ghost var before := buffer[..len];
      Sprintf(buffer, len, piece);
      assert buffer[..len + |piece|] == before + piece;
      assert speeds[..i + 1][..i] == speeds[..i];
      assert Join(speeds[..i + 1]) == before + piece;
      len := len + |piece|;
      i := i + 1;
    }
    JoinLength(speeds[..n]);
    text := buffer[..len];
  }
}
