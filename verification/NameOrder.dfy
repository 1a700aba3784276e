/** The order in which the CLI lists interfaces: the qsort comparator over their names. */
module NameOrder {
  import opened Base
  import opened SpeedText

  const BRIDGE := "bridge_normal"

  /* ---------- taking names apart ---------- */

  predicate StartsDigit(s: string) { s != "" && IsDigit(s[0]) }

  /** The length of the leading run of digits. */
  function DigitRun(s: string): (k: nat)
    ensures k <= |s| && IsNumber(s[..k])
    ensures k < |s| ==> !IsDigit(s[k])
  {
    if StartsDigit(s) then 1 + DigitRun(s[1..]) else 0
  }

  function Leading(s: string): nat { Value(s[..DigitRun(s)]) }

  /** What follows the leading digits. */
  function Behind(s: string): string { s[DigitRun(s)..] }

  predicate IsBlank(c: char) { c == ' ' || 9 <= c as int <= 13 }

  function SkipBlanks(s: string): string {
    if s != "" && IsBlank(s[0]) then SkipBlanks(s[1..]) else s
  }

  /** What %d and %lu accept: blanks, a sign, digits; the value and what is left of the text. */
  function Scan(s: string): Option<(int, string)> {
    var t := SkipBlanks(s);
    var signed := t != "" && (t[0] == '-' || t[0] == '+');
    var u := if signed then t[1..] else t;
    if !StartsDigit(u) then None
    else Some((if signed && t[0] == '-' then -(Leading(u) as int) else Leading(u), Behind(u)))
  }

  /** A separator, taken literally, and a number behind it. */
  function Field(s: string, sep: char): Option<(int, string)> {
    if s != "" && s[0] == sep then Scan(s[1..]) else None
  }

  const UINT_RANGE := 0x1_0000_0000
  const ULONG_RANGE := 0x1_0000_0000_0000_0000

  /** %d into an unsigned int: a long, clamped, of which the low half is kept. */
  function AsUint(v: int): (u: nat)
    ensures u < UINT_RANGE && (0 <= v < UINT_RANGE ==> u == v)
  {
    var long := ULONG_RANGE / 2;
    (if v >= long then long - 1 else if v < -long then -long else v) % UINT_RANGE
  }

  /** %lu: a minus sign wraps around, a number too large is the largest one. */
  function AsUlong(v: int): (u: nat)
    ensures u < ULONG_RANGE && (0 <= v < ULONG_RANGE ==> u == v)
  {
    if -ULONG_RANGE < v < ULONG_RANGE then v % ULONG_RANGE else ULONG_RANGE - 1
  }

  function TagIn(s: string): nat {
    var field := Field(s, '.');
    if field.Some? then AsUlong(field.value.0) else 0
  }

  datatype Key = KeyBridge | KeyNumber(id: nat, ext: nat, tag: nat) | KeyProper(kind: string, tag: nat)

  /** The two sscanf calls of compare_both_intf_numbers; a conversion that fails ends the
      call and leaves the rest at 0. */
  function NumberKey(s: string): Key {
    var ext := Field(Behind(s), '-');
    if '.' in s && '-' !in s then KeyNumber(AsUint(Leading(s)), 0, TagIn(Behind(s)))
    else if ext == None then KeyNumber(AsUint(Leading(s)), 0, 0)
    else KeyNumber(AsUint(Leading(s)), AsUint(ext.value.0), TagIn(ext.value.1))
  }

  /** Everything ahead of the first digit. */
  function Type(s: string): string
  {
    if s == "" || IsDigit(s[0]) then "" else [s[0]] + Type(s[1..])
  }

  /** All digits, wherever they stand. */
  function Digits(s: string): (d: string)
    ensures IsNumber(d)
  {
    if s == "" then "" else Digits(s[..|s| - 1]) + if IsDigit(s[|s| - 1]) then [s[|s| - 1]] else ""
  }

  /** A number in an unsigned long, which wraps around. */
  function Wrapped(v: nat): (u: nat)
    ensures v < ULONG_RANGE ==> u == v
  {
    v % ULONG_RANGE
  }

  function TagOf(s: string): nat { Wrapped(Value(Digits(s))) }

  function ProperKey(s: string): Key { KeyProper(Type(s), TagOf(s)) }

  function KeyOf(s: string): Key {
    if s == BRIDGE then KeyBridge else if StartsDigit(s) then NumberKey(s) else ProperKey(s)
  }

  /** The type is the longest part ahead of any digit. */
  lemma {:induction false} TypeIsPrefix(s: string)
    ensures Type(s) <= s && (forall c <- Type(s) :: !IsDigit(c))
    ensures |Type(s)| < |s| ==> IsDigit(s[|Type(s)|])
  {
    if s != "" && !IsDigit(s[0]) { TypeIsPrefix(s[1..]); }
  }

  lemma DigitsLast(s: string, c: char)
    ensures Digits(s + [c]) == Digits(s) + if IsDigit(c) then [c] else ""
  {
    assert (s + [c])[..|s|] == s;
  }

  /** Digits are taken from every part of a name, in order. */
  lemma {:induction false} DigitsOfParts(a: string, b: string)
    ensures Digits(a + b) == Digits(a) + Digits(b)
    decreases |b|
  {
    if b == "" {
      assert a + b == a;
    } else {
      var front, last := b[..|b| - 1], b[|b| - 1];
      DigitsOfParts(a, front);
      assert b == front + [last] && a + b == a + front + [last];
      DigitsLast(front, last);
      DigitsLast(a + front, last);
    }
  }

  /** extract_intf_type */
  method ExtractIntfType(name: string) returns (t: string)
    ensures t == Type(name)
  {
    var count := 0;
    while count < |name| && !IsDigit(name[count])
      invariant 0 <= count <= |name| && Type(name) == name[..count] + Type(name[count..])
    {
      assert name[count..][1..] == name[count + 1..] && name[..count + 1] == name[..count] + [name[count]];
      count := count + 1;
    }
    assert Type(name[count..]) == "";
    t := name[..count];
  }

  lemma {:induction false} Periodic(x: nat, k: nat)
    ensures Wrapped(x + k * ULONG_RANGE) == Wrapped(x)
  {
    if k > 0 { Periodic(x, k - 1); }
  }

  lemma WrapsStepwise(v: nat, d: nat)
    ensures Wrapped(Wrapped(v) * 10 + d) == Wrapped(v * 10 + d)
  {
    Periodic(Wrapped(v) * 10 + d, v / ULONG_RANGE * 10);
  }

  lemma DigitByDigit(name: string, i: nat)
    requires i < |name|
    ensures var was, now := TagOf(name[..i]), TagOf(name[..i + 1]);
      now == if IsDigit(name[i]) then Wrapped(was * 10 + DigitValue(name[i])) else was
  {
    hide Wrapped;
    assert name[..i + 1][..i] == name[..i];
    if IsDigit(name[i]) {
      var d := Digits(name[..i]);
      assert Digits(name[..i + 1]) == d + [name[i]] && (d + [name[i]])[..|d|] == d;
      assert Value(d + [name[i]]) == Value(d) * 10 + DigitValue(name[i]);
      WrapsStepwise(Value(d), DigitValue(name[i]));
    } else {
      assert Digits(name[..i + 1]) == Digits(name[..i]) + "" == Digits(name[..i]);
    }
  }

  /** extract_tag_from_intf_name */
  method ExtractTag(name: string) returns (val: nat)
    ensures val == TagOf(name)
  {
    val := 0;
    assert val == TagOf("");
    hide Wrapped, TagOf;
    var i := 0;
    assert name[..0] == "";
    while i < |name|
      invariant 0 <= i <= |name| && val == TagOf(name[..i])
    {
      DigitByDigit(name, i);
      if IsDigit(name[i]) { val := Wrapped(val * 10 + DigitValue(name[i])); }
      i := i + 1;
    }
    assert name[..i] == name;
  }

  /* ---------- comparing ---------- */

  /** strcmp, by sign. */
  function StrCmp(a: string, b: string): int {
    if a == "" then if b == "" then 0 else -1
    else if b == "" then 1
    else if a[0] < b[0] then -1
    else if a[0] > b[0] then 1
    else StrCmp(a[1..], b[1..])
  }

  function Sign(a: nat, b: nat): int { if a == b then 0 else if a < b then -1 else 1 }

  function CompareNumbers(a: Key, b: Key): int
    requires a.KeyNumber? && b.KeyNumber?
  {
    if a.id == b.id then
      if a.ext == b.ext then Sign(a.tag, b.tag) else Sign(a.ext, b.ext)
    else Sign(a.id, b.id)
  }

  function CompareProper(a: Key, b: Key): int
    requires a.KeyProper? && b.KeyProper?
  {
    if StrCmp(a.kind, b.kind) == 0 then Sign(a.tag, b.tag) else if StrCmp(a.kind, b.kind) < 0 then -1 else 1
  }

  /** compare_nodes_by_interface_name_and_tag */
  function Compare(a: string, b: string): int {
    if a == BRIDGE then -1
    else if b == BRIDGE then 1
    else if StartsDigit(a) && StartsDigit(b) then CompareNumbers(NumberKey(a), NumberKey(b))
    else if StartsDigit(a) then -1
    else if StartsDigit(b) then 1
    else CompareProper(ProperKey(a), ProperKey(b))
  }

  /* ---------- the order behind it ---------- */

  predicate Before(a: Key, b: Key) {
    match (a, b)
    case (KeyBridge, _) => b != KeyBridge
    case (KeyNumber(i, e, t), KeyNumber(j, f, u)) => i < j || (i == j && (e < f || (e == f && t < u)))
    case (KeyNumber(_, _, _), KeyProper(_, _)) => true
    case (KeyProper(k, t), KeyProper(l, u)) => StrCmp(k, l) < 0 || (k == l && t < u)
    case _ => false
  }

  /** a comes before b in byte order: it is a proper prefix of b, or smaller at the first
      character where they differ. */
  ghost predicate ByteBefore(a: string, b: string) { exists k: nat :: SplitAt(a, b, k) }

  predicate SplitAt(a: string, b: string, k: nat) {
    k <= |a| && k < |b| && a[..k] == b[..k] && (k < |a| ==> a[k] < b[k])
  }

  lemma SameHead(a: string, b: string, k: nat)
    requires a != "" && b != "" && k <= |a| && k <= |b| && a[..k] == b[..k]
    ensures k == 0 || a[0] == b[0]
  {
    if k > 0 { assert a[0] == a[..k][0] == b[..k][0]; }
  }

  /** strcmp is negative exactly then. */
  lemma {:induction false} StrCmpMeans(a: string, b: string)
    ensures StrCmp(a, b) < 0 <==> ByteBefore(a, b)
  {
    if a == "" {
      if b != "" { assert SplitAt(a, b, 0); }
    } else if b != "" {
      if a[0] != b[0] {
        if a[0] < b[0] { assert SplitAt(a, b, 0); }
        forall k: nat | SplitAt(a, b, k) ensures k == 0 { SameHead(a, b, k); }
      } else {
        StrCmpMeans(a[1..], b[1..]);
        forall k: nat | SplitAt(a[1..], b[1..], k) ensures SplitAt(a, b, k + 1) {
          assert a[..k + 1] == [a[0]] + a[1..][..k] && b[..k + 1] == [b[0]] + b[1..][..k];
        }
        forall k: nat | SplitAt(a, b, k) ensures k > 0 && SplitAt(a[1..], b[1..], k - 1) {
          if k > 0 { assert a[1..][..k - 1] == a[..k][1..] && b[1..][..k - 1] == b[..k][1..]; }
        }
      }
    }
  }

  lemma {:induction false} StrCmpOrder(a: string, b: string)
    ensures StrCmp(a, b) == 0 <==> a == b
    ensures StrCmp(a, b) < 0 <==> StrCmp(b, a) > 0
    ensures StrCmp(b, a) < 0 <==> StrCmp(a, b) > 0
  {
    if a != "" && b != "" {
      StrCmpOrder(a[1..], b[1..]);
      if a[0] == b[0] { assert a == [a[0]] + a[1..] && b == [b[0]] + b[1..]; }
    }
  }

  lemma {:induction false} StrCmpTransitive(a: string, b: string, c: string)
    requires StrCmp(a, b) < 0 && StrCmp(b, c) < 0
    ensures StrCmp(a, c) < 0
  {
    if a != "" && b != "" && c != "" && a[0] == b[0] == c[0] { StrCmpTransitive(a[1..], b[1..], c[1..]); }
  }

  /** The keys are totally ordered: rank first, then type or id, extension and tag. */
  lemma KeysOrdered(a: Key, b: Key, c: Key)
    ensures !(Before(a, b) && Before(b, a))
    ensures a == b || Before(a, b) || Before(b, a)
    ensures Before(a, b) && Before(b, c) ==> Before(a, c)
  {
    if a.KeyProper? && b.KeyProper? {
      StrCmpOrder(a.kind, b.kind);
      if c.KeyProper? {
        StrCmpOrder(b.kind, c.kind);
        if StrCmp(a.kind, b.kind) < 0 && StrCmp(b.kind, c.kind) < 0 { StrCmpTransitive(a.kind, b.kind, c.kind); }
      }
    }
  }

  /** The comparator compares keys, except that it puts bridge_normal before itself. */
  lemma CompareIsKeyOrder(a: string, b: string)
    requires a != BRIDGE || b != BRIDGE
    ensures Compare(a, b) < 0 <==> Before(KeyOf(a), KeyOf(b))
    ensures Compare(a, b) > 0 <==> Before(KeyOf(b), KeyOf(a))
    ensures Compare(a, b) == 0 <==> KeyOf(a) == KeyOf(b)
  {
    if KeyOf(a).KeyProper? && KeyOf(b).KeyProper? { StrCmpOrder(KeyOf(a).kind, KeyOf(b).kind); }
  }

  predicate IsProper(s: string) { s != BRIDGE && !StartsDigit(s) }

  /** The sign is the place of the keys in their order; names with a type go by its bytes and
      then by their number. */
  method CompareNodes(a: string, b: string) returns (r: int)
    ensures a == BRIDGE ==> r < 0
    ensures a != BRIDGE || b != BRIDGE ==> (r < 0 <==> Before(KeyOf(a), KeyOf(b)))
    ensures a != BRIDGE || b != BRIDGE ==> (r > 0 <==> Before(KeyOf(b), KeyOf(a)))
    ensures IsProper(a) && IsProper(b) ==>
      (r < 0 <==> ByteBefore(Type(a), Type(b)) || (Type(a) == Type(b) && TagOf(a) < TagOf(b)))
    ensures r == Compare(a, b)
  {
    if a != BRIDGE || b != BRIDGE { CompareIsKeyOrder(a, b); }
    StrCmpMeans(Type(a), Type(b));
    if a == BRIDGE { return -1; }
    if b == BRIDGE { return 1; }
    if StartsDigit(a) && StartsDigit(b) {
      r := CompareNumbers(NumberKey(a), NumberKey(b));
    } else if StartsDigit(a) || StartsDigit(b) {
      r := if StartsDigit(a) then -1 else 1;
    } else {
      var typeA := ExtractIntfType(a);
      var typeB := ExtractIntfType(b);
      if StrCmp(typeA, typeB) == 0 {
        var tagA := ExtractTag(a);
        var tagB := ExtractTag(b);
        r := Sign(tagA, tagB);
      } else {
        r := if StrCmp(typeA, typeB) < 0 then -1 else 1;
      }
    }
  }

  /** On distinct names: a strict weak order. */
  lemma StrictWeakOrder(a: string, b: string, c: string)
    requires a != b && b != c && a != c
    ensures Compare(a, b) < 0 <==> Compare(b, a) > 0
    ensures Compare(a, b) < 0 && Compare(b, c) < 0 ==> Compare(a, c) < 0
    ensures Compare(a, b) == 0 && Compare(b, c) == 0 ==> Compare(a, c) == 0
    ensures Compare(a, b) == 0 ==> (Compare(a, c) < 0 <==> Compare(b, c) < 0)
  {
    CompareIsKeyOrder(a, b);
    CompareIsKeyOrder(b, a);
    CompareIsKeyOrder(b, c);
    CompareIsKeyOrder(a, c);
    KeysOrdered(KeyOf(a), KeyOf(b), KeyOf(c));
  }

  /* ---------- the names in use ---------- */

  /** bridge_normal, id[-ext][.tag], or a type followed by a number. */
  datatype Form =
    | FormBridge
    | FormNumber(id: nat, ext: Option<nat>, tag: Option<nat>)
    | FormProper(kind: string, number: nat)

  /** A type without digits, and numbers that fit their variables. */
  predicate FormOk(f: Form) {
    match f
    case FormBridge => true
    case FormNumber(id, ext, tag) => id < UINT_RANGE && Or0(ext) < UINT_RANGE && Or0(tag) < ULONG_RANGE
    case FormProper(kind, n) => kind != "" && n < ULONG_RANGE && forall i :: 0 <= i < |kind| ==> !IsDigit(kind[i])
  }

  function Suffix(sep: char, n: Option<nat>): string { if n.Some? then [sep] + Decimal(n.value) else "" }

  function Text(f: Form): string {
    match f
    case FormBridge => BRIDGE
    case FormNumber(id, ext, tag) => Decimal(id) + (Suffix('-', ext) + Suffix('.', tag))
    case FormProper(kind, n) => kind + Decimal(n)
  }

  function Or0(n: Option<nat>): nat { if n.Some? then n.value else 0 }

  function FormKey(f: Form): Key {
    match f
    case FormBridge => KeyBridge
    case FormNumber(id, ext, tag) => KeyNumber(id, Or0(ext), Or0(tag))
    case FormProper(kind, n) => KeyProper(kind, n)
  }

  lemma {:induction false} RunOfDigits(d: string, rest: string)
    requires IsNumber(d) && !StartsDigit(rest)
    ensures DigitRun(d + rest) == |d|
  {
    if d == "" {
      assert d + rest == rest;
    } else {
      assert (d + rest)[1..] == d[1..] + rest && (d + rest)[0] == d[0];
      RunOfDigits(d[1..], rest);
    }
  }

  lemma LeadingDecimal(n: nat, rest: string)
    requires !StartsDigit(rest)
    ensures Leading(Decimal(n) + rest) == n && Behind(Decimal(n) + rest) == rest
    ensures StartsDigit(Decimal(n) + rest)
  {
    DecimalRoundTrip(n);
    RunOfDigits(Decimal(n), rest);
    assert (Decimal(n) + rest)[..|Decimal(n)|] == Decimal(n);
    assert (Decimal(n) + rest)[0] == Decimal(n)[0];
  }

  function Signed(sign: string, n: int): int { if sign == "-" then -n else n }

  lemma ScanSigned(sign: string, n: nat, rest: string)
    requires (sign == "" || sign == "-" || sign == "+") && !StartsDigit(rest)
    ensures Scan(sign + (Decimal(n) + rest)) == Some((Signed(sign, n), rest))
    ensures !IsBlank((sign + (Decimal(n) + rest))[0])
  {
    hide Leading, Behind, Decimal;
    var number := Decimal(n) + rest;
    LeadingDecimal(n, rest);
    DecimalRoundTrip(n);
    assert number[0] == Decimal(n)[0];
    if sign == "" { assert sign + number == number; } else { assert (sign + number)[1..] == number; }
  }

  /** What a conversion makes of blanks, a sign and a number. */
  lemma {:induction false} ScanText(blanks: string, sign: string, n: nat, rest: string)
    requires (forall c <- blanks :: IsBlank(c)) && (sign == "" || sign == "-" || sign == "+") && !StartsDigit(rest)
    ensures Scan(blanks + (sign + (Decimal(n) + rest))) == Some((Signed(sign, n), rest))
  {
    hide Leading, Behind, Decimal;
    var text := sign + (Decimal(n) + rest);
    if blanks == "" {
      assert blanks + text == text;
      ScanSigned(sign, n, rest);
    } else {
      assert (blanks + text)[1..] == blanks[1..] + text && (blanks + text)[0] == blanks[0];
      ScanText(blanks[1..], sign, n, rest);
    }
  }

  /** A negative number wraps around. */
  lemma NegativeWraps(n: int)
    requires 0 < n
    ensures n < UINT_RANGE ==> AsUint(-n) == UINT_RANGE - n
    ensures n < ULONG_RANGE ==> AsUlong(-n) == ULONG_RANGE - n
  {
  }

  /** A number beyond a long is clamped first, one beyond an unsigned long to the largest. */
  lemma LargeIsClamped(n: int)
    ensures n >= ULONG_RANGE / 2 ==> AsUint(n) == UINT_RANGE - 1 && AsUint(-n) == 0
    ensures n >= ULONG_RANGE ==> AsUlong(n) == ULONG_RANGE - 1 == AsUlong(-n)
  {
  }

  /** A number behind a separator, and what follows it. */
  lemma FieldOfSuffix(sep: char, m: Option<nat>, rest: string)
    requires !StartsDigit(rest) && (m == None ==> rest == "" || rest[0] != sep)
    ensures Field(Suffix(sep, m) + rest, sep) == if m.Some? then Some((m.value, rest)) else None
  {
    if m.Some? {
      DecimalRoundTrip(m.value);
      LeadingDecimal(m.value, rest);
      assert (Suffix(sep, m) + rest)[1..] == Decimal(m.value) + rest;
    } else {
      assert Suffix(sep, m) + rest == rest;
    }
  }

  lemma DecimalHasOnlyDigits(n: nat, c: char)
    requires !IsDigit(c)
    ensures c !in Decimal(n)
  {
    DecimalRoundTrip(n);
  }

  lemma NumberKeyOfText(id: nat, ext: Option<nat>, tag: Option<nat>)
    requires FormOk(FormNumber(id, ext, tag))
    ensures var s := Text(FormNumber(id, ext, tag));
      NumberKey(s) == KeyNumber(id, Or0(ext), Or0(tag)) && StartsDigit(s)
  {
    hide Scan, Leading;
    var s := Text(FormNumber(id, ext, tag));
    var behind := Suffix('-', ext) + Suffix('.', tag);
    DecimalHasOnlyDigits(id, '-');
    DecimalHasOnlyDigits(id, '.');
    DecimalHasOnlyDigits(Or0(tag), '-');
    LeadingDecimal(id, behind);
    assert Behind(s) == behind;
    FieldOfSuffix('-', ext, Suffix('.', tag));
    assert Suffix('.', tag) + "" == Suffix('.', tag);
    FieldOfSuffix('.', tag, "");
    if ext.Some? {
      assert '-' == s[|Decimal(id)|];
    } else {
      assert behind == Suffix('.', tag);
      assert s == Decimal(id) + Suffix('.', tag);
      if tag.Some? { assert '.' == s[|Decimal(id)|]; }
    }
  }

  lemma {:induction false} TypeOf(kind: string, n: nat)
    requires forall i :: 0 <= i < |kind| ==> !IsDigit(kind[i])
    ensures Type(kind + Decimal(n)) == kind
  {
    DecimalRoundTrip(n);
    if kind == "" {
      assert kind + Decimal(n) == Decimal(n);
    } else {
      assert (kind + Decimal(n))[1..] == kind[1..] + Decimal(n) && (kind + Decimal(n))[0] == kind[0];
      TypeOf(kind[1..], n);
    }
  }

  lemma {:induction false} DigitsOf(kind: string, d: string)
    requires IsNumber(d) && forall i :: 0 <= i < |kind| ==> !IsDigit(kind[i])
    ensures Digits(kind + d) == d
    decreases |kind| + |d|
  {
    if d != "" {
      assert (kind + d)[..|kind + d| - 1] == kind + d[..|d| - 1];
      DigitsOf(kind, d[..|d| - 1]);
    } else if kind != "" {
      assert (kind + d)[..|kind + d| - 1] == kind[..|kind| - 1] + "";
      DigitsOf(kind[..|kind| - 1], "");
    }
  }

  lemma NotBridge(s: string)
    requires s != "" && (StartsDigit(s) || IsDigit(s[|s| - 1]))
    ensures s != BRIDGE
  {
    assert BRIDGE[0] == 'b' && BRIDGE[12] == 'l';
  }

  /** Each name is read back as what it was made of. */
  lemma TextKey(f: Form)
    requires FormOk(f)
    ensures KeyOf(Text(f)) == FormKey(f)
    ensures Text(f) == BRIDGE <==> f == FormBridge
  {
    match f {
      case FormBridge =>
      case FormNumber(id, ext, tag) =>
        NumberKeyOfText(id, ext, tag);
        NotBridge(Text(f));
      case FormProper(kind, n) =>
        DecimalRoundTrip(n);
        TypeOf(kind, n);
        DigitsOf(kind, Decimal(n));
        assert (kind + Decimal(n))[0] == kind[0];
        NotBridge(kind + Decimal(n));
    }
  }

  /** A name with the numbers 0 spelled out is the same key without them. */
  function Plain(f: Form): Form {
    match f
    case FormNumber(id, ext, tag) =>
      FormNumber(id, if ext == Some(0) then None else ext, if tag == Some(0) then None else tag)
    case _ => f
  }

  /** The comparator ties two names exactly when they differ by an explicit 0 at most;
      names without one are totally ordered. */
  lemma TiesExactly(f: Form, g: Form)
    requires FormOk(f) && FormOk(g) && !(f.FormBridge? && g.FormBridge?)
    ensures Compare(Text(f), Text(g)) == 0 <==> Plain(f) == Plain(g)
    ensures Plain(f) == f && Plain(g) == g && Text(f) != Text(g) ==> Compare(Text(f), Text(g)) != 0
  {
    TextKey(f);
    TextKey(g);
    CompareIsKeyOrder(Text(f), Text(g));
  }

  const PLAIN_NAME := "10"
  const ZERO_NAME := "10-0"

  lemma ExplicitZeroTies()
    ensures PLAIN_NAME != ZERO_NAME && Compare(PLAIN_NAME, ZERO_NAME) == 0 == Compare(ZERO_NAME, PLAIN_NAME)
    ensures !OneListing({PLAIN_NAME, ZERO_NAME})
  {
    var f, g := FormNumber(10, None, None), FormNumber(10, Some(0), None);
    assert Decimal(10) == PLAIN_NAME && Decimal(0) == "0";
    assert Text(f) == PLAIN_NAME + ("" + "") == PLAIN_NAME;
    assert Text(g) == PLAIN_NAME + ("-0" + "") == ZERO_NAME;
    TiesExactly(f, g);
    TiesExactly(g, f);
    ListingIsDeterminedExactly({PLAIN_NAME, ZERO_NAME});
  }

  /* ---------- the sorted list ---------- */

  ghost predicate Sorted(s: seq<string>) { forall i, j :: 0 <= i < j < |s| ==> Compare(s[i], s[j]) <= 0 }

  /** What qsort may leave of the nodes: the names of the table, each once, in order. */
  ghost predicate SortedList(s: seq<string>, names: set<string>) { Enumerates(s, names) && Sorted(s) }

  ghost predicate NoTies(names: set<string>) {
    forall a, b :: a in names && b in names && a != b ==> Compare(a, b) != 0
  }

  lemma {:induction false} FirstIsLeast(s: seq<string>, t: seq<string>, names: set<string>)
    requires SortedList(s, names) && SortedList(t, names) && NoTies(names) && s != []
    ensures t != [] && s[0] == t[0]
  {
    assert s[0] in names;
    var j :| 0 <= j < |t| && t[j] == s[0];
    assert t[0] in names;
    var i :| 0 <= i < |s| && s[i] == t[0];
    if s[0] != t[0] {
      assert Compare(s[0], s[i]) <= 0 && Compare(t[0], t[j]) <= 0;
      CompareIsKeyOrder(s[0], t[0]);
      CompareIsKeyOrder(t[0], s[0]);
    }
  }

  lemma RestListed(s: seq<string>, names: set<string>)
    requires SortedList(s, names) && s != []
    ensures SortedList(s[1..], names - {s[0]})
  {
    var rest := s[1..];
    forall x ensures x in rest <==> x in names - {s[0]} {
      if x in names && x != s[0] {
        var i :| 0 <= i < |s| && s[i] == x;
        assert rest[i - 1] == x;
      }
    }
  }

  lemma NothingListed(s: seq<string>, names: set<string>)
    requires Enumerates(s, names)
    ensures s == [] <==> names == {}
  {
    if s != [] { assert s[0] in names; }
  }

  /** Without ties every hash order sorts to the same list. */
  lemma {:induction false} SortedListUnique(s: seq<string>, t: seq<string>, names: set<string>)
    requires SortedList(s, names) && SortedList(t, names) && NoTies(names)
    ensures s == t
    decreases |s|
  {
    NothingListed(s, names);
    NothingListed(t, names);
    if s != [] {
      FirstIsLeast(s, t, names);
      RestListed(s, names);
      RestListed(t, names);
      SortedListUnique(s[1..], t[1..], names - {s[0]});
    }
  }

  /** With a tie the two names may change places. */
  lemma TiedNamesSwap(s: seq<string>, names: set<string>, i: nat, j: nat)
    requires SortedList(s, names) && i < j < |s| && Compare(s[i], s[j]) == 0
    ensures SortedList(s[i := s[j]][j := s[i]], names) && s[i := s[j]][j := s[i]] != s
  {
    var t := s[i := s[j]][j := s[i]];
    assert t[i] == s[j] != s[i];
    forall k, l | 0 <= k < l < |t| ensures t[k] != t[l] && Compare(t[k], t[l]) <= 0 {
      SwappedPair(s, i, j, k, l);
    }
    forall x ensures x in t <==> x in names {
      if x in names {
        var k :| 0 <= k < |s| && s[k] == x;
        assert x == t[if k == i then j else if k == j then i else k];
      }
    }
  }

  lemma SwappedPair(s: seq<string>, i: nat, j: nat, k: nat, l: nat)
    requires Distinct(s) && Sorted(s) && i < j < |s| && Compare(s[i], s[j]) == 0 && k < l < |s|
    ensures var t := s[i := s[j]][j := s[i]]; t[k] != t[l] && Compare(t[k], t[l]) <= 0
  {
    var t := s[i := s[j]][j := s[i]];
    CompareIsKeyOrder(s[i], s[j]);
    CompareIsKeyOrder(t[k], t[l]);
    CompareIsKeyOrder(s[k], s[l]);
    assert Compare(s[k], s[l]) <= 0;
    if k != i && i < l { CompareIsKeyOrder(s[i], s[l]); assert Compare(s[i], s[l]) <= 0; }
    if k < j { CompareIsKeyOrder(s[k], s[j]); assert Compare(s[k], s[j]) <= 0; }
    KeysOrdered(KeyOf(s[k]), KeyOf(s[l]), KeyOf(s[i]));
  }

  function Insert(x: string, s: seq<string>): seq<string> {
    if s == [] || Compare(x, s[0]) <= 0 then [x] + s else [s[0]] + Insert(x, s[1..])
  }

  lemma {:induction false} InsertListed(x: string, s: seq<string>, names: set<string>)
    requires SortedList(s, names) && x !in names
    ensures SortedList(Insert(x, s), names + {x})
    decreases |s|
  {
    if s == [] {
      assert forall y :: y in names ==> y in s;
    } else if Compare(x, s[0]) <= 0 {
      forall i | 0 < i < |s| ensures Compare(x, s[i]) <= 0 {
        assert Compare(s[0], s[i]) <= 0;
        BelowAll(x, s[0], s[i]);
      }
      ListedBehind(x, s, names);
    } else {
      RestListed(s, names);
      InsertListed(x, s[1..], names - {s[0]});
      assert s[0] in names && names - {s[0]} + {x} == names + {x} - {s[0]};
      var rest := Insert(x, s[1..]);
      forall i | 0 <= i < |rest| ensures Compare(s[0], rest[i]) <= 0 {
        assert rest[i] in rest;
        if rest[i] == x {
          BelowAll(x, s[0], x);
        } else {
          assert rest[i] in names;
          var j :| 0 <= j < |s| && s[j] == rest[i];
          assert j > 0;
        }
      }
      ListedBehind(s[0], rest, names + {x} - {s[0]});
      assert names + {x} - {s[0]} + {s[0]} == names + {x};
    }
  }

  lemma BelowAll(x: string, y: string, z: string)
    requires x != y
    ensures x != z && y != z && Compare(x, y) <= 0 && Compare(y, z) <= 0 ==> Compare(x, z) <= 0
    ensures Compare(x, y) > 0 ==> Compare(y, x) <= 0
  {
    CompareIsKeyOrder(x, y);
    CompareIsKeyOrder(y, x);
    if y != z && x != z {
      CompareIsKeyOrder(y, z);
      CompareIsKeyOrder(x, z);
    }
    KeysOrdered(KeyOf(x), KeyOf(y), KeyOf(z));
    KeysOrdered(KeyOf(z), KeyOf(x), KeyOf(y));
  }

  lemma ListedBehind(x: string, s: seq<string>, names: set<string>)
    requires SortedList(s, names) && x !in names && forall i :: 0 <= i < |s| ==> Compare(x, s[i]) <= 0
    ensures SortedList([x] + s, names + {x})
  {
    var t := [x] + s;
    forall i, j | 0 <= i < j < |t| ensures t[i] != t[j] && Compare(t[i], t[j]) <= 0 {
      assert t[j] == s[j - 1] && t[j] in names;
      if i > 0 { assert t[i] == s[i - 1]; }
    }
    forall y ensures y in t <==> y in names + {x} {
      assert y in t <==> y == x || y in s;
    }
  }

  /** Every set of names has a sorted list. */
  lemma {:induction false} SortedListExists(names: set<string>) returns (s: seq<string>)
    ensures SortedList(s, names)
    decreases names
  {
    if names == {} {
      s := [];
    } else {
      var x :| x in names;
      var rest := SortedListExists(names - {x});
      InsertListed(x, rest, names - {x});
      assert names - {x} + {x} == names;
      s := Insert(x, rest);
    }
  }

  lemma TwoListings(names: set<string>, a: string, b: string) returns (s: seq<string>, t: seq<string>)
    requires a in names && b in names && a != b && Compare(a, b) == 0
    ensures SortedList(s, names) && SortedList(t, names) && s != t
  {
    s := SortedListExists(names);
    var i :| 0 <= i < |s| && s[i] == a;
    var j :| 0 <= j < |s| && s[j] == b;
    CompareIsKeyOrder(a, b);
    CompareIsKeyOrder(b, a);
    if i < j {
      TiedNamesSwap(s, names, i, j);
      t := s[i := s[j]][j := s[i]];
    } else {
      TiedNamesSwap(s, names, j, i);
      t := s[j := s[i]][i := s[j]];
    }
  }

  ghost predicate OneListing(names: set<string>) {
    forall s, t :: SortedList(s, names) && SortedList(t, names) ==> s == t
  }

  /** The list shown does not depend on the hash order exactly when no two names tie. */
  lemma ListingIsDeterminedExactly(names: set<string>)
    ensures OneListing(names) <==> NoTies(names)
  {
    if NoTies(names) {
      forall s, t | SortedList(s, names) && SortedList(t, names) ensures s == t { SortedListUnique(s, t, names); }
    }
    forall a, b | a in names && b in names && a != b && Compare(a, b) == 0 ensures !OneListing(names) {
      var s, t := TwoListings(names, a, b);
    }
  }
}
