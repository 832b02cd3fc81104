/** Dotted-quad IPv4 validation. The handler spells it as four explicit
    groups (middlewares/mqtt-handler.js:19), both firmware routers as a group
    repeated three times followed by a fourth (routers/firmware-router.js:140,
    routers/firmware.js:70). Both spellings denote `IsValidIPv4`: exactly four
    '.'-separated fields of one to three digits, each at most 255, leading
    zeros allowed. Host names, `localhost` included, are rejected. */
module Ipv4 {
  import opened Strings

  /** One field of a dotted quad. */
  predicate ValidField(t: string) {
    1 <= |t| <= 3 && AllDigits(t) && DecimalValue(t) <= 255
  }

  predicate AllValid(fields: seq<string>) {
    forall i :: 0 <= i < |fields| ==> ValidField(fields[i])
  }

  /** The validator both regular expressions implement. */
  predicate IsValidIPv4(ip: string) {
    var fields := Split(ip, '.');
    |fields| == 4 && AllValid(fields)
  }

  /** The strings the octet alternative `25[0-5]|2[0-4][0-9]|[01]?[0-9][0-9]?`
      matches in full; the last four lines are the choices of the two optional
      parts of the third branch. */
  predicate OctetPattern(t: string) {
    || (|t| == 3 && t[0] == '2' && t[1] == '5' && '0' <= t[2] <= '5')
    || (|t| == 3 && t[0] == '2' && '0' <= t[1] <= '4' && IsDigit(t[2]))
    || (|t| == 1 && IsDigit(t[0]))
    || (|t| == 2 && IsDigit(t[0]) && IsDigit(t[1]))
    || (|t| == 2 && (t[0] == '0' || t[0] == '1') && IsDigit(t[1]))
    || (|t| == 3 && (t[0] == '0' || t[0] == '1') && IsDigit(t[1]) && IsDigit(t[2]))
  }

  /** `^(G)\.(G)\.(G)\.(G)$` for a group G: four explicit groups separated by dots. */
  ghost predicate FourGroups(group: string -> bool, s: string) {
    exists p, q, r ::
      && 0 <= p < q < r < |s| && s[p] == '.' && s[q] == '.' && s[r] == '.'
      && group(s[0..p]) && group(s[p + 1..q]) && group(s[q + 1..r]) && group(s[r + 1..])
  }

  /** `(?:(?:G)\.){n}(?:G)$` matched from index i: n groups each followed by a
      dot, then one more group that runs to the end. */
  ghost predicate RepeatedFrom(group: string -> bool, s: string, i: nat, n: nat)
    requires i <= |s|
    decreases n
  {
    if n == 0 then group(s[i..])
    else exists p :: i <= p < |s| && s[p] == '.' && group(s[i..p]) && RepeatedFrom(group, s, p + 1, n - 1)
  }

  /** The handler's regular expression, with the octet alternative as each group. */
  ghost predicate MatchesFourGroups(s: string) {
    FourGroups(OctetPattern, s)
  }

  /** `^(?:(?:O)\.){3}(?:O)$`, the firmware routers' spelling. */
  ghost predicate MatchesQuantified(s: string) {
    RepeatedFrom(OctetPattern, s, 0, 3)
  }

  lemma DecimalValue1(t: string)
    requires |t| == 1 && AllDigits(t)
    ensures DecimalValue(t) == DigitValue(t[0])
  {
    assert t[..0] == [];
  }

  lemma DecimalValue2(t: string)
    requires |t| == 2 && AllDigits(t)
    ensures DecimalValue(t) == 10 * DigitValue(t[0]) + DigitValue(t[1])
  {
    DecimalValue1(t[..1]);
  }

  lemma DecimalValue3(t: string)
    requires |t| == 3 && AllDigits(t)
    ensures DecimalValue(t) == 100 * DigitValue(t[0]) + 10 * DigitValue(t[1]) + DigitValue(t[2])
  {
    DecimalValue2(t[..2]);
  }

  /** The octet alternative matches exactly the valid fields. */
  lemma OctetPatternIff(t: string)
    ensures OctetPattern(t) <==> ValidField(t)
  {
    if |t| == 3 && AllDigits(t) {
      DecimalValue3(t);
    } else if |t| == 2 && AllDigits(t) {
      DecimalValue2(t);
    } else if |t| == 1 && AllDigits(t) {
      DecimalValue1(t);
    }
  }

  lemma FieldHasNoDot(t: string)
    requires ValidField(t)
    ensures '.' !in t
  {
  }

  /** Splitting the suffix from i at its first dot p. */
  lemma SplitAtDot(s: string, i: nat, p: nat)
    requires i <= p < |s| && s[p] == '.' && '.' !in s[i..p]
    ensures Split(s[i..], '.') == [s[i..p]] + Split(s[p + 1..], '.')
  {
    assert s[i..] == s[i..p] + ['.'] + s[p + 1..];
    SplitCons(s[i..p], s[p + 1..], '.');
  }

  lemma AllValidCons(head: string, rest: seq<string>)
    ensures AllValid([head] + rest) <==> ValidField(head) && AllValid(rest)
  {
    var f := [head] + rest;
    if ValidField(head) && AllValid(rest) {
      forall i | 0 <= i < |f| ensures ValidField(f[i]) {
        if i > 0 { assert f[i] == rest[i - 1]; }
      }
    }
    if AllValid(f) {
      assert f[0] == head;
      forall i | 0 <= i < |rest| ensures ValidField(rest[i]) { assert rest[i] == f[i + 1]; }
    }
  }

  /** n = 0: a single octet is a single valid field. */
  lemma RepeatedBase(t: string)
    ensures OctetPattern(t) <==> |Split(t, '.')| == 1 && AllValid(Split(t, '.'))
  {
    JoinSplit(t, '.');
    OctetPatternIff(t);
    if ValidField(t) {
      FieldHasNoDot(t);
      SplitNoSep(t, '.');
    }
  }

  lemma {:induction false} RepeatedSound(s: string, i: nat, n: nat)
    requires i <= |s| && RepeatedFrom(OctetPattern, s, i, n)
    ensures |Split(s[i..], '.')| == n + 1 && AllValid(Split(s[i..], '.'))
    decreases n
  {
    if n == 0 {
      RepeatedBase(s[i..]);
    } else {
      var p := RepeatedPick(OctetPattern, s, i, n);
      OctetPatternIff(s[i..p]);
      FieldHasNoDot(s[i..p]);
      SplitAtDot(s, i, p);
      RepeatedSound(s, p + 1, n - 1);
      AllValidCons(s[i..p], Split(s[p + 1..], '.'));
    }
  }

  /** A split into at least two fields: the first field, a dot, and the rest. */
  lemma SplitHead(t: string) returns (k: nat)
    requires |Split(t, '.')| >= 2
    ensures k < |t| && t[k] == '.' && t[..k] == Split(t, '.')[0]
    ensures Split(t[k + 1..], '.') == Split(t, '.')[1..]
  {
    var f := Split(t, '.');
    JoinSplit(t, '.');
    var rest := f[1..];
    assert f == [f[0]] + rest;
    var tail := Join(rest, '.');
    assert t == f[0] + ['.'] + tail;
    k := |f[0]|;
    assert t[..k] == f[0];
    assert t[k + 1..] == tail;
    SplitJoin(rest, '.');
  }

  /** The same split, with positions counted in the whole string. */
  lemma SplitHeadFrom(s: string, i: nat) returns (p: nat)
    requires i <= |s| && |Split(s[i..], '.')| >= 2
    ensures i <= p < |s| && s[p] == '.' && s[i..p] == Split(s[i..], '.')[0]
    ensures Split(s[p + 1..], '.') == Split(s[i..], '.')[1..]
  {
    var k := SplitHead(s[i..]);
    p := i + k;
    assert s[i..][..k] == s[i..p];
    assert s[i..][k + 1..] == s[p + 1..];
  }

  lemma {:induction false} RepeatedComplete(s: string, i: nat, n: nat)
    requires i <= |s| && |Split(s[i..], '.')| == n + 1 && AllValid(Split(s[i..], '.'))
    ensures RepeatedFrom(OctetPattern, s, i, n)
    decreases n
  {
    if n == 0 {
      RepeatedBase(s[i..]);
    } else {
      var f := Split(s[i..], '.');
      var p := SplitHeadFrom(s, i);
      assert f == [f[0]] + f[1..];
      AllValidCons(f[0], f[1..]);
      RepeatedComplete(s, p + 1, n - 1);
      OctetPatternIff(f[0]);
      RepeatedStep(OctetPattern, s, i, p, n);
    }
  }

  /** The repeated-group pattern with n repetitions of the octet alternative
      matches exactly the strings that split into n + 1 valid fields. */
  lemma RepeatedIff(s: string, n: nat)
    ensures RepeatedFrom(OctetPattern, s, 0, n) <==> |Split(s, '.')| == n + 1 && AllValid(Split(s, '.'))
  {
    assert s[0..] == s;
    if RepeatedFrom(OctetPattern, s, 0, n) {
      RepeatedSound(s, 0, n);
    }
    if |Split(s, '.')| == n + 1 && AllValid(Split(s, '.')) {
      RepeatedComplete(s, 0, n);
    }
  }

  /** One step of the repeated pattern, in the parsing direction. */
  lemma RepeatedPick(group: string -> bool, s: string, i: nat, n: nat) returns (p: nat)
    requires i <= |s| && n > 0 && RepeatedFrom(group, s, i, n)
    ensures i <= p < |s| && s[p] == '.' && group(s[i..p]) && RepeatedFrom(group, s, p + 1, n - 1)
  {
    p :| i <= p < |s| && s[p] == '.' && group(s[i..p]) && RepeatedFrom(group, s, p + 1, n - 1);
  }

  /** One step of the repeated pattern, in the matching direction. */
  lemma RepeatedStep(group: string -> bool, s: string, i: nat, p: nat, n: nat)
    requires i <= p < |s| && n > 0 && s[p] == '.' && group(s[i..p]) && RepeatedFrom(group, s, p + 1, n - 1)
    ensures RepeatedFrom(group, s, i, n)
  {
  }

  /** The last two groups of the repeated pattern. */
  lemma RepeatedLast(group: string -> bool, s: string, i: nat, n: nat) returns (p: nat)
    requires i <= |s| && n == 1 && RepeatedFrom(group, s, i, n)
    ensures i <= p < |s| && s[p] == '.' && group(s[i..p]) && group(s[p + 1..])
  {
    p := RepeatedPick(group, s, i, n);
    assert RepeatedFrom(group, s, p + 1, n - 1);
  }

  /** The last three groups of the repeated pattern. */
  lemma RepeatedLastTwo(group: string -> bool, s: string, i: nat, n: nat) returns (q: nat, r: nat)
    requires i <= |s| && n == 2 && RepeatedFrom(group, s, i, n)
    ensures i <= q < r < |s| && s[q] == '.' && s[r] == '.'
    ensures group(s[i..q]) && group(s[q + 1..r]) && group(s[r + 1..])
  {
    q := RepeatedPick(group, s, i, n);
    r := RepeatedLast(group, s, q + 1, n - 1);
  }

  /** The three dots of a match of the repeated pattern with n = 3. */
  lemma RepeatedDots(group: string -> bool, s: string, n: nat) returns (p: nat, q: nat, r: nat)
    requires n == 3 && RepeatedFrom(group, s, 0, n)
    ensures p < q < r < |s| && s[p] == '.' && s[q] == '.' && s[r] == '.'
    ensures group(s[0..p]) && group(s[p + 1..q]) && group(s[q + 1..r]) && group(s[r + 1..])
  {
    p := RepeatedPick(group, s, 0, n);
    q, r := RepeatedLastTwo(group, s, p + 1, n - 1);
  }

  lemma FourGroupsIntro(group: string -> bool, s: string, p: nat, q: nat, r: nat)
    requires p < q < r < |s| && s[p] == '.' && s[q] == '.' && s[r] == '.'
    requires group(s[0..p]) && group(s[p + 1..q]) && group(s[q + 1..r]) && group(s[r + 1..])
    ensures FourGroups(group, s)
  {
  }

  lemma FourGroupsToRepeated(group: string -> bool, s: string, n: nat)
    requires n == 3 && FourGroups(group, s)
    ensures RepeatedFrom(group, s, 0, n)
  {
    var p, q, r :|
      && 0 <= p < q < r < |s| && s[p] == '.' && s[q] == '.' && s[r] == '.'
      && group(s[0..p]) && group(s[p + 1..q]) && group(s[q + 1..r]) && group(s[r + 1..]);
    assert RepeatedFrom(group, s, r + 1, n - 3);
    assert RepeatedFrom(group, s, q + 1, n - 2);
    assert RepeatedFrom(group, s, p + 1, n - 1);
  }

  lemma RepeatedToFourGroups(group: string -> bool, s: string, n: nat)
    requires n == 3 && RepeatedFrom(group, s, 0, n)
    ensures FourGroups(group, s)
  {
    var p, q, r := RepeatedDots(group, s, n);
    FourGroupsIntro(group, s, p, q, r);
  }

  /** Four explicit groups and three repetitions plus one group match the same
      strings, whatever the group. */
  lemma FourGroupsIffRepeated(group: string -> bool, s: string, n: nat)
    requires n == 3
    ensures FourGroups(group, s) <==> RepeatedFrom(group, s, 0, n)
  {
    if FourGroups(group, s) {
      FourGroupsToRepeated(group, s, n);
    }
    if RepeatedFrom(group, s, 0, n) {
      RepeatedToFourGroups(group, s, n);
    }
  }

  /** The handler's regular expression accepts exactly the dotted quads. */
  lemma HandlerRegexIsDottedQuad(s: string)
    ensures MatchesFourGroups(s) <==> IsValidIPv4(s)
  {
    var n := 3;
    FourGroupsIffRepeated(OctetPattern, s, n);
    RepeatedIff(s, n);
  }

  /** The firmware routers' regular expression accepts exactly the dotted quads. */
  lemma FirmwareRegexIsDottedQuad(s: string)
    ensures MatchesQuantified(s) <==> IsValidIPv4(s)
  {
    var n := 3;
    RepeatedIff(s, n);
  }

  /** Four fields joined by dots split back into those four fields. */
  lemma SplitQuad(a: string, b: string, c: string, d: string)
    requires '.' !in a && '.' !in b && '.' !in c && '.' !in d
    ensures Split(a + "." + b + "." + c + "." + d, '.') == [a, b, c, d]
  {
    SplitNoSep(d, '.');
    SplitCons(c, d, '.');
    SplitCons(b, c + "." + d, '.');
    assert b + "." + c + "." + d == b + ['.'] + (c + "." + d);
    SplitCons(a, b + "." + c + "." + d, '.');
    assert a + "." + b + "." + c + "." + d == a + ['.'] + (b + "." + c + "." + d);
  }

  /** A string of four dot-free fields joined by dots is a dotted quad exactly
      when each field is valid. */
  lemma QuadIff(a: string, b: string, c: string, d: string)
    requires '.' !in a && '.' !in b && '.' !in c && '.' !in d
    ensures IsValidIPv4(a + "." + b + "." + c + "." + d) <==> ValidField(a) && ValidField(b) && ValidField(c) && ValidField(d)
  {
    SplitQuad(a, b, c, d);
    var f := [a, b, c, d];
    assert f[0] == a && f[1] == b && f[2] == c && f[3] == d;
  }

  /** A private address is accepted. */
  lemma AcceptsPrivateAddress()
    ensures IsValidIPv4("192.168.1.1")
  {
    QuadIff("192", "168", "1", "1");
    assert "192" + "." + "168" + "." + "1" + "." + "1" == "192.168.1.1";
    DecimalValue3("192");
    DecimalValue3("168");
    DecimalValue1("1");
  }

  /** Leading zeros are accepted. */
  lemma AcceptsLeadingZeros()
    ensures IsValidIPv4("010.0.0.255")
  {
    QuadIff("010", "0", "0", "255");
    assert "010" + "." + "0" + "." + "0" + "." + "255" == "010.0.0.255";
    DecimalValue3("010");
    DecimalValue3("255");
    DecimalValue1("0");
  }

  /** A field above 255 is rejected. */
  lemma RejectsOctetAbove255()
    ensures !IsValidIPv4("256.1.1.1")
  {
    QuadIff("256", "1", "1", "1");
    assert "256" + "." + "1" + "." + "1" + "." + "1" == "256.1.1.1";
    DecimalValue3("256");
  }

  /** Host names, `localhost` among them, and the empty string are rejected. */
  lemma RejectsHostNames()
    ensures !IsValidIPv4("localhost")
    ensures !IsValidIPv4("")
  {
    SplitNoSep("localhost", '.');
  }
}
