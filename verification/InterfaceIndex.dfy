/** The sort index of an interface name, computed from up to four number components. */
module InterfaceIndex {
  import opened Common

  const GROUPS := 4

  function Pow100(n: nat): (p: nat)
    ensures p > 0
  {
    if n == 0 then 1 else 100 * Pow100(n - 1)
  }

  /** The components as digits of a base 100 number, each digit one above its component. */
  function Value(s: seq<nat>): nat {
    if s == [] then 0 else Pow100(|s| - 1) * (s[0] + 1) + Value(s[1..])
  }

  /** The components that are there. */
  function Present(groups: seq<Option<nat>>): seq<nat> {
    if groups == [] then []
    else (match groups[0] case Some(n) => [n] case None => []) + Present(groups[1..])
  }

  // ----------------------------------------------------------------- matching the name

  predicate Letter(c: char) { 'a' <= c <= 'z' || 'A' <= c <= 'Z' || c == '-' }

  predicate Digit(c: char) { '0' <= c <= '9' }

  /** How many characters at the start are letters or dashes. */
  function Letters(s: string): (n: nat)
    ensures n <= |s|
  {
    if s == "" || !Letter(s[0]) then 0 else 1 + Letters(s[1..])
  }

  function DigitRun(s: string): (n: nat)
    ensures n <= |s| && (n > 0 <==> s != "" && Digit(s[0]))
  {
    if s == "" || !Digit(s[0]) then 0 else 1 + DigitRun(s[1..])
  }

  function Number(digits: string): nat
    requires forall i :: 0 <= i < |digits| ==> Digit(digits[i])
  {
    if digits == "" then 0
    else
      assert Digit(digits[|digits| - 1]);
      10 * Number(digits[..|digits| - 1]) + (digits[|digits| - 1] as int - '0' as int)
  }

  lemma {:induction false} RunIsDigits(s: string)
    ensures forall i :: 0 <= i < DigitRun(s) ==> Digit(s[..DigitRun(s)][i])
  {
    if s != "" && Digit(s[0]) {
      RunIsDigits(s[1..]);
      var n := DigitRun(s[1..]);
      assert s[..n + 1] == [s[0]] + s[1..][..n];
    }
  }

  /** Up to max components: digits, then a slash or not; None when something else is left over. */
  function Groups(s: string, max: nat): (r: Option<seq<Option<nat>>>)
    ensures r.Some? ==> |r.value| == max
    decreases max
  {
    if max == 0 then (if s == "" then Some([]) else None)
    else if s == "" then Some(seq(max, _ => None))
    else
      var n := DigitRun(s);
      if n == 0 then None
      else
        RunIsDigits(s);
        var after := if n < |s| && s[n] == '/' then n + 1 else n;
        match Groups(s[after..], max - 1)
        case None => None
        case Some(rest) => Some([Some(Number(s[..n]))] + rest)
  }

  /** A prefix of letters and dashes, then one to four components. */
  function Parse(ifname: string): Option<seq<Option<nat>>> {
    var rest := ifname[Letters(ifname)..];
    if rest == "" then None else Groups(rest, GROUPS)
  }

  datatype IndexError = ValueError

  /** The last group first; missing ones shift the weights down. */
  method WeighGroups(groups: seq<Option<nat>>) returns (indexNum: nat)
    requires |groups| == GROUPS
    ensures indexNum == Value(Present(groups))
  {
    indexNum := 0;
    var missing := 0;
    for index := GROUPS downto 0
      invariant missing + |Present(groups[index..])| == GROUPS - index
      invariant indexNum == Value(Present(groups[index..]))
    {
      assert groups[index..][1..] == groups[index + 1..] && groups[index..][0] == groups[index];
      ghost var rest := Present(groups[index + 1..]);
      match groups[index] {
        case Some(item) =>
          assert Present(groups[index..]) == [item] + rest && ([item] + rest)[1..] == rest;
          indexNum := indexNum + Pow100(GROUPS - (index + 1) - missing) * (item + 1);
        case None =>
          assert Present(groups[index..]) == rest;
          missing := missing + 1;
      }
    }
    assert groups[0..] == groups;
  }

  method InterfaceIndexNum(ifname: string) returns (r: Result<nat, IndexError>)
    ensures r == match Parse(ifname) case None => Err(ValueError) case Some(groups) => Ok(Value(Present(groups)))
  {
    var parsed := Parse(ifname);
    if parsed.None? { return Err(ValueError); }
    var indexNum := WeighGroups(parsed.value);
    return Ok(indexNum);
  }

  // ------------------------------------------------------------------ writing a name

  /** Decimal digits without leading zeros. */
  function Decimal(n: nat): string {
    if n < 10 then [(n + '0' as int) as char] else Decimal(n / 10) + [(n % 10 + '0' as int) as char]
  }

  /** Components joined by slashes. */
  function Join(components: seq<nat>): string {
    if components == [] then ""
    else if |components| == 1 then Decimal(components[0])
    else Decimal(components[0]) + "/" + Join(components[1..])
  }

  lemma {:induction false} DecimalIsNumber(n: nat)
    ensures Decimal(n) != "" && (forall i :: 0 <= i < |Decimal(n)| ==> Digit(Decimal(n)[i]))
    ensures Number(Decimal(n)) == n
  {
    if n >= 10 {
      DecimalIsNumber(n / 10);
      var d := Decimal(n);
      assert d[..|d| - 1] == Decimal(n / 10);
    } else {
      assert Decimal(n)[..0] == "";
    }
  }

  lemma {:induction false} RunStopsAt(digits: string, rest: string)
    requires forall i :: 0 <= i < |digits| ==> Digit(digits[i])
    requires rest == "" || !Digit(rest[0])
    ensures DigitRun(digits + rest) == |digits|
  {
    if digits == "" {
      assert digits + rest == rest;
    } else {
      RunStopsAt(digits[1..], rest);
      assert (digits + rest)[1..] == digits[1..] + rest;
    }
  }

  lemma NextGroup(n: nat, rest: string, max: nat)
    requires max > 0 && (rest == "" || rest[0] == '/')
    ensures Groups(Decimal(n) + rest, max) ==
            match Groups(if rest == "" then "" else rest[1..], max - 1)
            case None => None
            case Some(others) => Some([Some(n)] + others)
  {
    var d := Decimal(n);
    DecimalIsNumber(n);
    RunStopsAt(d, rest);
    var s := d + rest;
    assert s[..|d|] == d && s[|d|..] == rest;
    if rest != "" { assert s[|d| + 1..] == rest[1..]; }
  }

  function Padded(components: seq<nat>, max: nat): seq<Option<nat>>
    requires |components| <= max
  {
    seq(max, i requires 0 <= i < max => if i < |components| then Some(components[i]) else None)
  }

  lemma JoinStart(components: seq<nat>) returns (rest: string)
    requires components != []
    ensures Join(components) == Decimal(components[0]) + rest
    ensures rest == "" || rest[0] == '/'
    ensures (if rest == "" then "" else rest[1..]) == Join(components[1..])
  {
    var others := components[1..];
    rest := if others == [] then "" else "/" + Join(others);
    if others == [] {
      assert Decimal(components[0]) + "" == Decimal(components[0]);
    } else {
      assert rest[1..] == Join(others);
      assert Decimal(components[0]) + "/" + Join(others) == Decimal(components[0]) + rest;
    }
  }

  lemma {:induction false} GroupsOfJoin(components: seq<nat>, max: nat)
    requires |components| <= max
    ensures Groups(Join(components), max) == Some(Padded(components, max))
    decreases |components|
  {
    if components == [] {
      GroupsOfNothing(max);
    } else {
      var rest := JoinStart(components);
      NextGroup(components[0], rest, max);
      GroupsOfJoin(components[1..], max - 1);
      PaddedHead(components, max);
    }
  }

  lemma GroupsOfNothing(max: nat)
    ensures Groups("", max) == Some(Padded([], max))
  {
    if max == 0 {
      assert Padded([], 0) == [];
    } else {
      var none: seq<Option<nat>> := seq(max, _ => None);
      assert none == Padded([], max);
    }
  }

  lemma PaddedHead(components: seq<nat>, max: nat)
    requires 0 < |components| <= max
    ensures Padded(components, max) == [Some(components[0])] + Padded(components[1..], max - 1)
  {
  }

  lemma {:induction false} LettersStop(prefix: string, rest: string)
    requires (forall i :: 0 <= i < |prefix| ==> Letter(prefix[i])) && (rest == "" || !Letter(rest[0]))
    ensures Letters(prefix + rest) == |prefix|
  {
    if prefix == "" {
      assert prefix + rest == rest;
    } else {
      LettersStop(prefix[1..], rest);
      assert (prefix + rest)[1..] == prefix[1..] + rest;
    }
  }

  lemma {:induction false} PresentOfPadded(components: seq<nat>, max: nat)
    requires |components| <= max
    ensures Present(Padded(components, max)) == components
    decreases max
  {
    if max > 0 {
      var p := Padded(components, max);
      if components == [] {
        assert p[1..] == Padded([], max - 1);
        PresentOfPadded([], max - 1);
      } else {
        assert p[1..] == Padded(components[1..], max - 1);
        PresentOfPadded(components[1..], max - 1);
        assert components == [components[0]] + components[1..];
      }
    }
  }

  /** A name written with one to four components is matched, and its index is that of its components. */
  lemma NamesAreMatched(prefix: string, components: seq<nat>)
    requires (forall i :: 0 <= i < |prefix| ==> Letter(prefix[i])) && 1 <= |components| <= 4
    ensures Parse(prefix + Join(components)).Some?
    ensures Present(Parse(prefix + Join(components)).value) == components
  {
    DecimalIsNumber(components[0]);
    var j := Join(components);
    assert j[0] == Decimal(components[0])[0];
    LettersStop(prefix, j);
    assert (prefix + j)[|prefix|..] == j;
    GroupsOfJoin(components, GROUPS);
    PresentOfPadded(components, GROUPS);
  }

  // ----------------------------------------------------------- exactly which names match

  predicate AllDigits(s: string) { forall i :: 0 <= i < |s| ==> '0' <= s[i] <= '9' }

  predicate LettersOrDashes(s: string) {
    forall i :: 0 <= i < |s| ==> 'a' <= s[i] <= 'z' || 'A' <= s[i] <= 'Z' || s[i] == '-'
  }

  /** Strings joined by slashes. */
  function Slashed(parts: seq<string>): string {
    if parts == [] then "" else if |parts| == 1 then parts[0] else parts[0] + "/" + Slashed(parts[1..])
  }

  predicate Numerals(parts: seq<string>) { forall i :: 0 <= i < |parts| ==> parts[i] != "" && AllDigits(parts[i]) }

  function Numbers(parts: seq<string>): seq<nat>
    requires Numerals(parts)
  {
    if parts == [] then [] else [Number(parts[0])] + Numbers(parts[1..])
  }

  /** Letters and dashes, then one to four numerals with slashes between them, then perhaps another slash. */
  ghost predicate IsName(ifname: string, prefix: string, parts: seq<string>, tail: string) {
    && LettersOrDashes(prefix) && 1 <= |parts| <= 4 && Numerals(parts) && (tail == "" || tail == "/")
    && ifname == prefix + (Slashed(parts) + tail)
  }

  lemma {:induction false} RunEnds(s: string)
    ensures DigitRun(s) < |s| ==> !Digit(s[DigitRun(s)])
  {
    if s != "" && Digit(s[0]) { RunEnds(s[1..]); }
  }

  lemma OnePart(head: string, parts: seq<string>, tail: string)
    requires parts != []
    ensures Slashed([head] + parts) + tail == head + "/" + (Slashed(parts) + tail)
  {
    assert ([head] + parts)[1..] == parts;
  }

  lemma NumbersOfMore(head: string, parts: seq<string>)
    requires head != "" && AllDigits(head) && Numerals(parts)
    ensures Numerals([head] + parts) && Numbers([head] + parts) == [Number(head)] + Numbers(parts)
  {
    var all := [head] + parts;
    assert all[1..] == parts;
    forall i | 0 <= i < |all| ensures all[i] != "" && AllDigits(all[i]) { if i > 0 { assert all[i] == parts[i - 1]; } }
  }

  /** What is left after a numeral and a slash that may follow it. */
  function AfterSlash(rest: string): string { if rest != "" && rest[0] == '/' then rest[1..] else rest }

  lemma GroupsStep(head: string, rest: string, max: nat)
    requires head != "" && AllDigits(head) && (rest == "" || !Digit(rest[0])) && max > 0
    ensures Groups(head + rest, max) == match Groups(AfterSlash(rest), max - 1)
                                        case None => None
                                        case Some(others) => Some([Some(Number(head))] + others)
  {
    var s := head + rest;
    RunStopsAt(head, rest);
    assert s[..|head|] == head && s[|head|..] == rest;
    if rest != "" { assert s[|head| + 1..] == rest[1..]; }
  }

  lemma PresentOfMore(n: nat, others: seq<Option<nat>>)
    ensures Present([Some(n)] + others) == [n] + Present(others)
  {
    assert ([Some(n)] + others)[1..] == others;
  }

  lemma FirstNumeral(s: string) returns (head: string, rest: string)
    ensures s == head + rest && AllDigits(head) && (rest == "" || !Digit(rest[0]))
    ensures s != "" && Digit(s[0]) ==> head != ""
  {
    var n := DigitRun(s);
    RunIsDigits(s);
    RunEnds(s);
    head, rest := s[..n], s[n..];
  }

  lemma LastPart(head: string, rest: string, max: nat)
    requires head != "" && AllDigits(head) && max > 0 && (rest == "" || rest == "/")
    ensures Numerals([head]) && head + rest == Slashed([head]) + rest
    ensures Groups(head + rest, max).Some? && Present(Groups(head + rest, max).value) == Numbers([head])
  {
    GroupsStep(head, rest, max);
    assert AfterSlash(rest) == "";
    GroupsOfNothing(max - 1);
    PresentOfPadded([], max - 1);
    PresentOfMore(Number(head), Padded([], max - 1));
    NumbersOfMore(head, []);
    assert [head] + [] == [head];
  }

  lemma SlashStep(head: string, body: string, max: nat)
    requires head != "" && AllDigits(head) && max > 0 && Groups(body, max - 1).Some?
    ensures Groups(head + "/" + body, max) == Some([Some(Number(head))] + Groups(body, max - 1).value)
  {
    var rest := "/" + body;
    assert head + "/" + body == head + rest && rest[1..] == body;
    GroupsStep(head, rest, max);
  }

  lemma MoreParts(head: string, parts: seq<string>, body: string, max: nat)
    requires head != "" && AllDigits(head) && Numerals(parts) && max > 0 && Groups(body, max - 1).Some?
    ensures Numerals([head] + parts) && Groups(head + "/" + body, max).Some?
    ensures Present(Groups(body, max - 1).value) == Numbers(parts) ==>
              Present(Groups(head + "/" + body, max).value) == Numbers([head] + parts)
  {
    SlashStep(head, body, max);
    PresentOfMore(Number(head), Groups(body, max - 1).value);
    NumbersOfMore(head, parts);
  }

  /** The list of numerals, and what follows it, that a string is. */
  ghost predicate ArePartsOf(s: string, parts: seq<string>, tail: string, max: nat) {
    1 <= |parts| <= max && Numerals(parts) && (tail == "" || tail == "/") && s == Slashed(parts) + tail
  }

  lemma AttachHead(head: string, body: string, others: seq<string>, tail: string, max: nat)
    requires head != "" && AllDigits(head) && max > 0 && Groups(body, max - 1).Some?
    requires ArePartsOf(body, others, tail, max - 1) && Present(Groups(body, max - 1).value) == Numbers(others)
    ensures ArePartsOf(head + "/" + body, [head] + others, tail, max)
    ensures Groups(head + "/" + body, max).Some?
    ensures Present(Groups(head + "/" + body, max).value) == Numbers([head] + others)
  {
    MoreParts(head, others, body, max);
    OnePart(head, others, tail);
  }

  lemma BodyMatches(head: string, rest: string, max: nat)
    requires head != "" && AllDigits(head) && max > 0 && rest != "" && rest != "/" && !Digit(rest[0])
    requires Groups(head + rest, max).Some?
    ensures rest[0] == '/' && rest[1..] != "" && Groups(rest[1..], max - 1).Some?
    ensures head + rest == head + "/" + rest[1..]
  {
    GroupsStep(head, rest, max);
    assert rest[0] == '/';
    assert rest == "/" + rest[1..];
  }

  /** What the groups match is such a list of numerals. */
  lemma {:induction false} GroupsAreParts(s: string, max: nat) returns (parts: seq<string>, tail: string)
    requires s != "" && Groups(s, max).Some?
    ensures ArePartsOf(s, parts, tail, max) && Present(Groups(s, max).value) == Numbers(parts)
    decreases max
  {
    assert max > 0 && Digit(s[0]);
    var head, rest := FirstNumeral(s);
    if rest == "" || rest == "/" {
      parts, tail := [head], rest;
      LastPart(head, rest, max);
    } else {
      BodyMatches(head, rest, max);
      var others;
      others, tail := GroupsAreParts(rest[1..], max - 1);
      parts := [head] + others;
      AttachHead(head, rest[1..], others, tail, max);
    }
  }

  /** Every such list of numerals is matched. */
  lemma {:induction false} PartsAreGroups(parts: seq<string>, tail: string, max: nat)
    requires 1 <= |parts| <= max && Numerals(parts) && (tail == "" || tail == "/")
    ensures Groups(Slashed(parts) + tail, max).Some?
    decreases |parts|
  {
    var head, others := parts[0], parts[1..];
    assert parts == [head] + others;
    if others == [] {
      assert parts == [head];
      LastPart(head, tail, max);
    } else {
      assert Numerals(others);
      PartsAreGroups(others, tail, max - 1);
      MoreParts(head, others, Slashed(others) + tail, max);
      OnePart(head, others, tail);
    }
  }

  lemma {:induction false} LettersAre(s: string)
    ensures LettersOrDashes(s[..Letters(s)]) && (Letters(s) < |s| ==> !Letter(s[Letters(s)]))
  {
    if s != "" && Letter(s[0]) {
      LettersAre(s[1..]);
      assert s[..Letters(s)] == [s[0]] + s[1..][..Letters(s[1..])];
    }
  }

  lemma NameIsMatched(prefix: string, parts: seq<string>, tail: string, ifname: string)
    requires IsName(ifname, prefix, parts, tail)
    ensures Parse(ifname).Some?
  {
    var rest := Slashed(parts) + tail;
    assert rest[0] == parts[0][0];
    LettersStop(prefix, rest);
    assert ifname[|prefix|..] == rest;
    PartsAreGroups(parts, tail, GROUPS);
  }

  lemma ParseBody(ifname: string) returns (prefix: string, body: string)
    requires Parse(ifname).Some?
    ensures ifname == prefix + body && LettersOrDashes(prefix) && body != "" && Parse(ifname) == Groups(body, GROUPS)
  {
    LettersAre(ifname);
    prefix, body := ifname[..Letters(ifname)], ifname[Letters(ifname)..];
  }

  lemma MatchedIsName(ifname: string) returns (prefix: string, parts: seq<string>, tail: string)
    requires Parse(ifname).Some?
    ensures IsName(ifname, prefix, parts, tail) && Present(Parse(ifname).value) == Numbers(parts)
  {
    var body;
    prefix, body := ParseBody(ifname);
    parts, tail := GroupsAreParts(body, GROUPS);
  }

  /** A name is taken apart into its numerals, and raises if it is not of this form. */
  lemma MatchedIff(ifname: string)
    ensures Parse(ifname).Some? <==> exists prefix, parts, tail :: IsName(ifname, prefix, parts, tail)
    ensures Parse(ifname).Some? ==>
              exists prefix, parts, tail ::
                IsName(ifname, prefix, parts, tail) && Present(Parse(ifname).value) == Numbers(parts)
  {
    if Parse(ifname).Some? { var prefix, parts, tail := MatchedIsName(ifname); }
    if prefix, parts, tail :| IsName(ifname, prefix, parts, tail) { NameIsMatched(prefix, parts, tail, ifname); }
  }

  // ---------------------------------------------------------------------- the order

  predicate Bounded(s: seq<nat>) { forall i :: 0 <= i < |s| ==> s[i] < 100 }

  /** Shorter first, then by the first component that differs. */
  predicate Before(s: seq<nat>, t: seq<nat>) {
    |s| < |t| || (|s| == |t| && Lexicographic(s, t))
  }

  predicate Lexicographic(s: seq<nat>, t: seq<nat>)
    requires |s| == |t|
  {
    s != [] && (s[0] < t[0] || (s[0] == t[0] && Lexicographic(s[1..], t[1..])))
  }

  /** The value of n zero components. */
  function Least(n: nat): nat { if n == 0 then 0 else Pow100(n - 1) + Least(n - 1) }

  lemma {:induction false} LeastByPower(n: nat)
    ensures 99 * Least(n) == Pow100(n) - 1
  {
    if n > 0 { LeastByPower(n - 1); }
  }

  lemma Weigh(p: nat, a: nat, b: nat)
    requires a <= b
    ensures p * (b + 1) == p * (a + 1) + p * (b - a) && p * (b - a) >= 0
    ensures a < b ==> p * (b - a) >= p
  {
    assert p * (b + 1) == p * (a + 1) + p * (b - a);
    if a < b { assert p * (b - a) == p + p * (b - a - 1); }
  }

  lemma {:induction false} ValueBounds(s: seq<nat>)
    requires Bounded(s)
    ensures Least(|s|) <= Value(s) <= 100 * Least(|s|)
  {
    if s != [] {
      ValueBounds(s[1..]);
      var p := Pow100(|s| - 1);
      Weigh(p, 0, s[0]);
      Weigh(p, s[0], 99);
      assert p * (99 + 1) == 100 * p;
    }
  }

  lemma {:induction false} LongerIsGreater(m: nat, n: nat)
    requires m < n
    ensures 100 * Least(m) < Least(n)
  {
    LeastByPower(m);
    LeastByPower(m + 1);
    if m + 1 < n {
      LongerIsGreater(m, n - 1);
    }
  }

  lemma {:induction false} OrderedSameLength(s: seq<nat>, t: seq<nat>)
    requires Bounded(s) && Bounded(t) && |s| == |t| && Lexicographic(s, t)
    ensures Value(s) < Value(t)
  {
    var p := Pow100(|s| - 1);
    if s[0] < t[0] {
      ValueBounds(s[1..]);
      ValueBounds(t[1..]);
      LeastByPower(|s| - 1);
      Weigh(p, s[0], t[0]);
    } else {
      OrderedSameLength(s[1..], t[1..]);
    }
  }

  lemma {:induction false} Trichotomy(s: seq<nat>, t: seq<nat>)
    requires |s| == |t|
    ensures s == t || Lexicographic(s, t) || Lexicographic(t, s)
  {
    if s != [] && s[0] == t[0] {
      Trichotomy(s[1..], t[1..]);
      if s[1..] == t[1..] { assert s == [s[0]] + s[1..] && t == [t[0]] + t[1..]; }
    }
  }

  lemma OrderedIfBefore(s: seq<nat>, t: seq<nat>)
    requires Bounded(s) && Bounded(t) && Before(s, t)
    ensures Value(s) < Value(t)
  {
    if |s| < |t| {
      ValueBounds(s);
      ValueBounds(t);
      LongerIsGreater(|s|, |t|);
    } else {
      OrderedSameLength(s, t);
    }
  }

  /** With components up to 99 the index orders interfaces, and tells any two apart. */
  lemma IndexOrders(s: seq<nat>, t: seq<nat>)
    requires Bounded(s) && Bounded(t)
    ensures Value(s) < Value(t) <==> Before(s, t)
    ensures Value(s) == Value(t) <==> s == t
  {
    if |s| == |t| { Trichotomy(s, t); }
    if Before(s, t) { OrderedIfBefore(s, t); }
    if Before(t, s) { OrderedIfBefore(t, s); }
  }

  // ------------------------------------------------------------------ how far it goes

  lemma {:induction false} ValueSnoc(s: seq<nat>, c: nat)
    ensures Value(s + [c]) == 100 * Value(s) + c + 1
  {
    if s == [] {
      assert [] + [c] == [c];
      assert Value([c]) == Pow100(0) * (c + 1) + Value([]);
    } else {
      ValueSnoc(s[1..], c);
      assert (s + [c])[1..] == s[1..] + [c];
      var p := Pow100(|s| - 1);
      assert (100 * p) * (s[0] + 1) == 100 * (p * (s[0] + 1));
    }
  }

  /** Reading the components back from an index. */
  function Digits(n: nat): (s: seq<nat>)
    ensures Bounded(s)
  {
    if n == 0 then [] else Digits((n - 1) / 100) + [(n - 1) % 100]
  }

  lemma {:induction false} ValueOfDigits(n: nat)
    ensures Value(Digits(n)) == n
  {
    if n > 0 {
      ValueOfDigits((n - 1) / 100);
      ValueSnoc(Digits((n - 1) / 100), (n - 1) % 100);
    }
  }

  /** The components can be read back exactly when all are at most 99; otherwise two lists share the index. */
  lemma ReadBackIffBounded(s: seq<nat>)
    ensures Digits(Value(s)) == s <==> Bounded(s)
    ensures Value(Digits(Value(s))) == Value(s)
  {
    ValueOfDigits(Value(s));
    if Bounded(s) { IndexOrders(Digits(Value(s)), s); }
  }

  /** Ethernet100 and Ethernet0/0 have the same index. */
  lemma OneHundredCollides()
    ensures Value([100]) == 101 && Value([0, 0]) == 101
  {
    ValueSnoc([], 100);
    ValueSnoc([], 0);
    ValueSnoc([0], 0);
    assert [] + [100] == [100] && [] + [0] == [0] && [0] + [0] == [0, 0];
  }

  /** Two interfaces of a device are told apart by the index, and ordered by it, when no component is above 99. */
  lemma NamesAreOrdered(p: string, s: seq<nat>, q: string, t: seq<nat>)
    requires (forall i :: 0 <= i < |p| ==> Letter(p[i])) && (forall i :: 0 <= i < |q| ==> Letter(q[i]))
    requires 1 <= |s| <= GROUPS && 1 <= |t| <= GROUPS && Bounded(s) && Bounded(t)
    ensures var (x, y) := (Parse(p + Join(s)), Parse(q + Join(t)));
            && x.Some? && y.Some?
            && (Value(Present(x.value)) < Value(Present(y.value)) <==> Before(s, t))
            && (Value(Present(x.value)) == Value(Present(y.value)) <==> s == t)
  {
    NamesAreMatched(p, s);
    NamesAreMatched(q, t);
    IndexOrders(s, t);
  }
}
