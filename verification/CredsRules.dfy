/** Exactly what the creds parser accepts and what the printer prints (creds/creds.go), said without their loops. */
module CredsRules {
  import opened Wrappers
  import opened CredsFile
  import opened CredsRoundTrip

  // ------------------------------------------------------------------
  // Numbers.
  // ------------------------------------------------------------------

  function Zeros(k: nat): (s: string)
    ensures |s| == k && forall i :: 0 <= i < k ==> s[i] == '0'
  {
    seq(k, i => '0')
  }

  function Digit(d: nat): char
    requires d < 10
  {
    "0123456789"[d]
  }

  /** The decimal rendering of a number, without leading zeros. */
  function Decimal(n: nat): (s: string)
    ensures s != ""
  {
    (if n < 10 then "" else Decimal(n / 10)) + [Digit(n % 10)]
  }

  lemma {:induction false} ZerosAreZero(k: nat)
    ensures Digits(Zeros(k)) == Some(0)
  {
    if k > 0 {
      ZerosAreZero(k - 1);
      assert Zeros(k)[..k - 1] == Zeros(k - 1);
    }
  }

  lemma DigitValue(d: nat)
    requires d < 10
    ensures '0' <= Digit(d) <= '9' && Digit(d) as int - '0' as int == d
  {
  }

  lemma {:induction false} DigitsOfDecimal(k: nat, n: nat)
    ensures Digits(Zeros(k) + Decimal(n)) == Some(n)
  {
    var s := Zeros(k) + Decimal(n);
    var init := Zeros(k) + (if n < 10 then "" else Decimal(n / 10));
    assert s == init + [Digit(n % 10)] && s[..|s| - 1] == init;
    DigitValue(n % 10);
    if n < 10 {
      ZerosAreZero(k);
      assert init == Zeros(k);
    } else {
      DigitsOfDecimal(k, n / 10);
    }
  }

  /** Decimal text, with leading zeros and a sign or without, reads as its number. */
  lemma AtoiReads(k: nat, n: nat)
    ensures Atoi(Zeros(k) + Decimal(n)) == Some(n)
    ensures Atoi("+" + (Zeros(k) + Decimal(n))) == Some(n)
    ensures Atoi("-" + (Zeros(k) + Decimal(n))) == Some(-(n as int))
  {
    DigitsOfDecimal(k, n);
    SignedDigits(Zeros(k) + Decimal(n), n);
  }

  lemma SignedDigits(s: string, n: nat)
    requires s != "" && Digits(s) == Some(n)
    ensures Atoi(s) == Some(n) && Atoi("+" + s) == Some(n) && Atoi("-" + s) == Some(-(n as int))
  {
    DigitsAreDigits(s);
    assert '0' <= s[0] <= '9';
    assert ("+" + s)[1..] == s && ("-" + s)[1..] == s;
  }

  predicate AllDigits(s: string) {
    forall i :: 0 <= i < |s| ==> '0' <= s[i] <= '9'
  }

  lemma {:induction false} DigitsAreDigits(s: string)
    ensures Digits(s).Some? <==> AllDigits(s)
  {
    if s != "" {
      DigitsAreDigits(s[..|s| - 1]);
      assert s == s[..|s| - 1] + [s[|s| - 1]];
    }
  }

  /** Nothing but digits after an optional sign is a number. */
  lemma AtoiAcceptsExactly(s: string)
    ensures Atoi(s).Some? <==>
            || (s != "" && AllDigits(s))
            || (|s| >= 2 && s[0] in "+-" && AllDigits(s[1..]))
  {
    DigitsAreDigits(s);
    if s != "" {
      DigitsAreDigits(s[1..]);
    }
  }

  lemma {:induction false} OnlyZerosAreZero(s: string)
    requires Digits(s) == Some(0)
    ensures s == Zeros(|s|)
  {
    if s != "" {
      OnlyZerosAreZero(s[..|s| - 1]);
      assert s == s[..|s| - 1] + [s[|s| - 1]];
    }
  }

  /** The texts that read as 1. */
  predicate IsOne(s: string, k: nat) {
    s == Zeros(k) + "1" || s == "+" + (Zeros(k) + "1")
  }

  ghost predicate ReadsAsOne(s: string) {
    exists k :: IsOne(s, k)
  }

  lemma DigitsOne(s: string)
    requires Digits(s) == Some(1)
    ensures s != "" && s == Zeros(|s| - 1) + "1"
  {
    var init, last := s[..|s| - 1], s[|s| - 1];
    LastDigit(s);
    OnlyZerosAreZero(init);
    assert s == init + [last];
  }

  /** A number of 1 ends in that digit, and the digits before it are worth nothing. */
  lemma LastDigit(s: string)
    requires Digits(s) == Some(1)
    ensures s != "" && s[|s| - 1] == '1' && Digits(s[..|s| - 1]) == Some(0)
  {
    var m, d := Digits(s[..|s| - 1]).value, s[|s| - 1] as int - '0' as int;
    assert 0 <= d <= 9 && 10 * m + d == 1;
  }

  lemma OneExactly(s: string)
    ensures Atoi(s) == Some(1) <==> ReadsAsOne(s)
  {
    if Atoi(s) == Some(1) {
      AtoiOne(s);
    }
    if ReadsAsOne(s) {
      var k :| IsOne(s, k);
      AtoiReads(k, 1);
      DecimalOne();
    }
  }

  lemma DecimalOne()
    ensures Decimal(1) == "1"
  {
  }

  lemma AtoiOne(s: string)
    requires Atoi(s) == Some(1)
    ensures ReadsAsOne(s)
  {
    if s[0] == '+' {
      DigitsOne(s[1..]);
      assert s == "+" + s[1..];
      assert IsOne(s, |s| - 2);
    } else {
      DigitsOne(s);
      assert IsOne(s, |s| - 1);
    }
  }

  // ------------------------------------------------------------------
  // The version.
  // ------------------------------------------------------------------

  /** The first line that starts with the version marker. */
  predicate IsVersionLine(ls: seq<string>, i: nat) {
    i < |ls| && VERSION_MARKER <= ls[i] && forall j :: 0 <= j < i ==> !(VERSION_MARKER <= ls[j])
  }

  function VersionText(line: string): string
    requires VERSION_MARKER <= line
  {
    TrimSpace(line[|VERSION_MARKER|..])
  }

  lemma {:induction false} VersionStep(ls: seq<string>, i: nat)
    requires IsVersionLine(ls, i)
    ensures VersionOk(ls) <==> Atoi(VersionText(ls[i])) == Some(1)
  {
    if i > 0 {
      assert forall j :: 0 <= j < i - 1 ==> ls[1..][j] == ls[j + 1];
      VersionStep(ls[1..], i - 1);
    }
  }

  lemma {:induction false} NoVersion(ls: seq<string>)
    requires forall j :: 0 <= j < |ls| ==> !(VERSION_MARKER <= ls[j])
    ensures VersionOk(ls)
  {
    if ls != [] {
      NoVersion(ls[1..]);
    }
  }

  /** The first version line decides, whatever stands on the other lines: it must read as 1. */
  ghost predicate VersionRule(ls: seq<string>) {
    forall i: nat :: IsVersionLine(ls, i) ==> ReadsAsOne(VersionText(ls[i]))
  }

  lemma {:induction false} SomeVersionLine(ls: seq<string>, k: nat) returns (i: nat)
    requires k < |ls| && VERSION_MARKER <= ls[k]
    ensures IsVersionLine(ls, i)
  {
    if j :| 0 <= j < k && VERSION_MARKER <= ls[j] {
      i := SomeVersionLine(ls, j);
    } else {
      i := k;
    }
  }

  lemma VersionExactly(ls: seq<string>)
    ensures VersionOk(ls) <==> VersionRule(ls)
  {
    forall i: nat | IsVersionLine(ls, i)
      ensures VersionOk(ls) <==> ReadsAsOne(VersionText(ls[i]))
    {
      VersionStep(ls, i);
      OneExactly(VersionText(ls[i]));
    }
    if k :| 0 <= k < |ls| && VERSION_MARKER <= ls[k] {
      var i := SomeVersionLine(ls, k);
    } else {
      NoVersion(ls);
    }
  }

  /** A file is refused when its first version line reads as any other number, as a negative one, or as none. */
  lemma OtherVersionsAreRefused(contents: string, i: nat, k: nat, n: nat)
    requires IsVersionLine(TrimmedLines(contents), i)
    ensures var text := VersionText(TrimmedLines(contents)[i]);
            (n != 1 && text in {Zeros(k) + Decimal(n), "+" + (Zeros(k) + Decimal(n))})
            || text == "-" + (Zeros(k) + Decimal(n)) || Atoi(text).None? ==>
              Parsed(contents) == None
  {
    VersionStep(TrimmedLines(contents), i);
    AtoiReads(k, n);
  }

  // ------------------------------------------------------------------
  // A section.
  // ------------------------------------------------------------------

  /** The lines of a section that count: not blank, and not the begin marker again. */
  function PayloadLines(body: seq<string>, begin: string): seq<string> {
    if body == [] then []
    else (if body[0] == "" || body[0] == begin then [] else [body[0]]) + PayloadLines(body[1..], begin)
  }

  /** The section opens at the first begin marker and closes at the next end marker, around these lines. */
  predicate SectionAt(ls: seq<string>, begin: string, end: string, pre: seq<string>, body: seq<string>, post: seq<string>) {
    ls == pre + ([begin] + (body + ([end] + post))) && begin !in pre && end !in body
  }

  function Held(payload: string): seq<string> {
    if payload == "" then [] else [payload]
  }

  lemma {:induction false} ScanBody(body: seq<string>, post: seq<string>, begin: string, end: string, payload: string, x: string)
    requires end !in body && begin != end && end != ""
    ensures Scan(body + ([end] + post), begin, end, true, payload) == Found(x) <==>
            Held(payload) + PayloadLines(body, begin) == [x]
  {
    var ls := body + ([end] + post);
    if body == [] {
      assert ls == [end] + post;
      assert Held(payload) + [] == Held(payload);
    } else {
      assert ls[0] == body[0] && ls[1..] == body[1..] + ([end] + post);
      if body[0] == begin || body[0] == "" {
        ScanBody(body[1..], post, begin, end, payload, x);
      } else if payload == "" {
        ScanBody(body[1..], post, begin, end, body[0], x);
        assert Held(payload) + PayloadLines(body, begin) == Held(body[0]) + PayloadLines(body[1..], begin);
      } else {
        assert |Held(payload) + PayloadLines(body, begin)| >= 2;
      }
    }
  }

  lemma {:induction false} FoundCloses(ls: seq<string>, begin: string, end: string, payload: string)
    returns (body: seq<string>, post: seq<string>)
    requires begin != end && Scan(ls, begin, end, true, payload).Found?
    ensures ls == body + ([end] + post) && end !in body
  {
    if ls[0] == end {
      body, post := [], ls[1..];
      assert ls == [] + ([end] + ls[1..]);
    } else {
      var rest: seq<string>;
      if ls[0] == begin || ls[0] == "" {
        rest, post := FoundCloses(ls[1..], begin, end, payload);
      } else {
        rest, post := FoundCloses(ls[1..], begin, end, ls[0]);
      }
      body := [ls[0]] + rest;
      assert ls == [ls[0]] + ls[1..];
      assert body + ([end] + post) == [ls[0]] + (rest + ([end] + post));
    }
  }

  lemma {:induction false} FoundOpens(ls: seq<string>, begin: string, end: string) returns (pre: seq<string>, rest: seq<string>)
    requires Scan(ls, begin, end, false, "").Found?
    ensures ls == pre + ([begin] + rest) && begin !in pre
    ensures Scan(rest, begin, end, true, "") == Scan(ls, begin, end, false, "")
  {
    if ls[0] == begin {
      pre, rest := [], ls[1..];
      assert ls == [] + ([begin] + ls[1..]);
    } else {
      var more: seq<string>;
      more, rest := FoundOpens(ls[1..], begin, end);
      pre := [ls[0]] + more;
      assert ls == [ls[0]] + ls[1..];
      assert pre + ([begin] + rest) == [ls[0]] + (more + ([begin] + rest));
    }
  }

  /** One pass finds x exactly when the section is there, closed, with x its only line that counts; and finds
      nothing exactly when no line opens it. Anything else is an error. */
  lemma SectionExactly(ls: seq<string>, begin: string, end: string, x: string)
    requires begin != end && begin != "" && end != ""
    ensures Scan(ls, begin, end, false, "") == Absent <==> begin !in ls
    ensures Scan(ls, begin, end, false, "") == Found(x) <==>
            exists pre, body, post :: SectionAt(ls, begin, end, pre, body, post) && PayloadLines(body, begin) == [x]
  {
    ScanAbsent(ls, begin, end);
    if Scan(ls, begin, end, false, "") == Found(x) {
      var pre, rest := FoundOpens(ls, begin, end);
      var body, post := FoundCloses(rest, begin, end, "");
      ScanBody(body, post, begin, end, "", x);
      assert Held("") + PayloadLines(body, begin) == PayloadLines(body, begin);
      assert SectionAt(ls, begin, end, pre, body, post);
    }
    if pre, body, post :| SectionAt(ls, begin, end, pre, body, post) && PayloadLines(body, begin) == [x] {
      var section := [begin] + (body + ([end] + post));
      ScanSkips(pre, section, begin, end);
      assert section[1..] == body + ([end] + post);
      ScanBody(body, post, begin, end, "", x);
      assert Held("") + PayloadLines(body, begin) == PayloadLines(body, begin);
    }
  }

  // ------------------------------------------------------------------
  // The file.
  // ------------------------------------------------------------------

  /** A field as the file carries it, "" standing for no section. */
  ghost predicate Carries(ls: seq<string>, begin: string, end: string, x: string) {
    if x == "" then begin !in ls
    else exists pre, body, post :: SectionAt(ls, begin, end, pre, body, post) && PayloadLines(body, begin) == [x]
  }

  lemma CarriesExactly(ls: seq<string>, begin: string, end: string, x: string)
    requires begin != end && begin != "" && end != ""
    ensures Gives(Scan(ls, begin, end, false, ""), x) <==> Carries(ls, begin, end, x)
  {
    SectionExactly(ls, begin, end, x);
  }

  /** Parsing yields given creds exactly when the version reads as 1, each section is carried, or absent, as
      given, and there is a token. */
  lemma ParsedExactly(contents: string, c: Creds)
    ensures var ls := TrimmedLines(contents);
            Parsed(contents) == Some(c) <==>
              && VersionRule(ls)
              && Carries(ls, ACCOUNT_BEGIN, ACCOUNT_END, c.accountToken)
              && Carries(ls, USER_BEGIN, USER_END, c.userToken)
              && Carries(ls, SEED_BEGIN, SEED_END, c.seed)
              && (c.accountToken != "" || c.userToken != "")
  {
    var ls := TrimmedLines(contents);
    AccountMarkersArePlain();
    UserMarkersArePlain();
    SeedMarkersArePlain();
    MarkersDiffer();
    VersionExactly(ls);
    CarriesExactly(ls, ACCOUNT_BEGIN, ACCOUNT_END, c.accountToken);
    CarriesExactly(ls, USER_BEGIN, USER_END, c.userToken);
    CarriesExactly(ls, SEED_BEGIN, SEED_END, c.seed);
    ParsedGives(contents, c);
  }

  // ------------------------------------------------------------------
  // Lines and trimming.
  // ------------------------------------------------------------------

  function Joined(ls: seq<string>): string {
    if ls == [] then "" else ls[0] + Joined(ls[1..])
  }

  predicate EndsLine(l: string) {
    l != "" && l[|l| - 1] == '\n' && '\n' !in l[..|l| - 1]
  }

  /** The lines make up the text. */
  lemma {:induction false} LinesJoin(s: string)
    ensures Joined(Lines(s)) == s
  {
    if s != "" {
      LinesJoin(s[1..]);
      JoinedPrepend(s[0], Lines(s[1..]));
    }
  }

  lemma JoinedPrepend(c: char, rest: seq<string>)
    ensures Joined(Prepend(c, rest)) == [c] + Joined(rest)
  {
    if c == '\n' || rest == [] {
      assert ([[c]] + rest)[1..] == rest;
    } else {
      assert ([[c] + rest[0]] + rest[1..])[1..] == rest[1..];
      assert [c] + (rest[0] + Joined(rest[1..])) == ([c] + rest[0]) + Joined(rest[1..]);
    }
  }

  /** Each line ends with its only newline, but for a last one that may have none. */
  predicate AreLines(ls: seq<string>) {
    forall i :: 0 <= i < |ls| ==> EndsLine(ls[i]) || (i == |ls| - 1 && ls[i] != "" && '\n' !in ls[i])
  }

  lemma {:induction false} LinesExactly(s: string)
    ensures AreLines(Lines(s))
  {
    if s != "" {
      LinesExactly(s[1..]);
      PrependedLines(s[0], Lines(s[1..]));
    }
  }

  lemma PrependedLines(c: char, rest: seq<string>)
    requires AreLines(rest)
    ensures AreLines(Prepend(c, rest))
  {
    var ls := Prepend(c, rest);
    if c == '\n' || rest == [] {
      assert forall i :: 1 <= i < |ls| ==> ls[i] == rest[i - 1];
    } else {
      LineGrows(c, rest[0]);
      assert forall i :: 1 <= i < |ls| ==> ls[i] == rest[i];
    }
  }

  lemma LineGrows(c: char, l: string)
    requires c != '\n'
    ensures EndsLine(l) ==> EndsLine([c] + l)
    ensures '\n' !in l ==> '\n' !in [c] + l
  {
    if l != "" {
      assert ([c] + l)[..|l|] == [c] + l[..|l| - 1];
    }
  }

  lemma {:induction false} TrimRightExactly(s: string)
    ensures TrimRight(s) <= s && Blank(s[|TrimRight(s)|..])
  {
    if s != "" && IsSpace(s[|s| - 1]) {
      TrimRightExactly(s[..|s| - 1]);
      var t := TrimRight(s[..|s| - 1]);
      assert s[|t|..] == s[..|s| - 1][|t|..] + [s[|s| - 1]];
    }
  }

  lemma {:induction false} TrimLeftExactly(s: string)
    ensures |TrimLeft(s)| <= |s| && s[|s| - |TrimLeft(s)|..] == TrimLeft(s) && Blank(s[..|s| - |TrimLeft(s)|])
  {
    if s != "" && IsSpace(s[0]) {
      TrimLeftExactly(s[1..]);
      var cut := |s[1..]| - |TrimLeft(s[1..])|;
      assert s[..cut + 1] == [s[0]] + s[1..][..cut];
    }
  }

  predicate TrimsTo(s: string, pre: string, t: string, post: string) {
    s == pre + t + post && Blank(pre) && Blank(post) && Tight(t)
  }

  /** Trimming takes the space off both ends and nothing else. */
  lemma TrimExactly(s: string) returns (pre: string, post: string)
    ensures TrimsTo(s, pre, TrimSpace(s), post)
  {
    TrimLeftExactly(s);
    TrimRightExactly(TrimLeft(s));
    TrimIsTight(s);
    pre, post := Cut(s, TrimLeft(s), TrimSpace(s));
  }

  lemma Cut(s: string, l: string, t: string) returns (pre: string, post: string)
    requires |l| <= |s| && s[|s| - |l|..] == l && Blank(s[..|s| - |l|])
    requires t <= l && Blank(l[|t|..])
    ensures s == pre + t + post && Blank(pre) && Blank(post)
  {
    pre, post := s[..|s| - |l|], l[|t|..];
    assert l == t + post && s == pre + l;
    assert pre + (t + post) == pre + t + post;
  }

  /** Space is the white space of Unicode. */
  lemma SpacesExactly(c: char)
    ensures IsSpace(c) <==>
            var p := c as int;
            || p in {0x9, 0xA, 0xB, 0xC, 0xD, 0x20, 0x85, 0xA0, 0x1680, 0x2028, 0x2029, 0x202F, 0x205F, 0x3000}
            || 0x2000 <= p <= 0x200A
  {
  }

  // ------------------------------------------------------------------
  // The printed text.
  // ------------------------------------------------------------------

  function SectionText(begin: string, text: string, end: string): string {
    begin + "\n" + TrimSpace(text) + "\n" + end + "\n"
  }

  lemma UnlinesThree(a: string, b: string, c: string)
    ensures Unlines([a, b, c]) == a + "\n" + b + "\n" + c + "\n"
  {
    assert [a, b, c][1..] == [b, c] && [b, c][1..] == [c] && [c][1..] == [];
    assert Unlines([c]) == c + "\n";
    assert Unlines([b, c]) == b + "\n" + (c + "\n");
    assert Unlines([a, b, c]) == a + "\n" + (b + "\n" + (c + "\n"));
  }

  lemma UnlinesBlank()
    ensures Unlines([""]) == "\n" && Unlines([HEADER, ""]) == HEADER + "\n\n"
  {
    assert [""][1..] == [] && [HEADER, ""][1..] == [""];
    assert "" + "\n" + "" == "\n";
    assert HEADER + "\n" + "\n" == HEADER + "\n\n";
  }

  lemma UserText(b: Creds)
    ensures Unlines(UserLines(b)) ==
            if b.userToken == "" then ""
            else (if b.accountToken != "" then "\n" else "") + SectionText(USER_BEGIN, b.userToken, USER_END)
  {
    if b.userToken != "" {
      var lead := if b.accountToken != "" then [""] else [];
      UnlinesConcat(lead, [USER_BEGIN, TrimSpace(b.userToken), USER_END]);
      UnlinesThree(USER_BEGIN, TrimSpace(b.userToken), USER_END);
      UnlinesBlank();
    }
  }

  lemma SeedText(b: Creds)
    ensures Unlines(SeedLines(b)) ==
            if b.seed == "" then ""
            else "\n" + SectionText(SEED_BEGIN, b.seed, SEED_END) + ("" + "\n" + STARS + "\n" + WARNING + "\n")
  {
    if b.seed != "" {
      var section, note := [SEED_BEGIN, TrimSpace(b.seed), SEED_END], ["", STARS, WARNING];
      UnlinesBlank();
      UnlinesThree(SEED_BEGIN, TrimSpace(b.seed), SEED_END);
      UnlinesThree("", STARS, WARNING);
      UnlinesConcat([""], section);
      UnlinesConcat([""] + section, note);
      assert SeedLines(b) == [""] + section + note;
    }
  }

  /** The printed file as one text: header, sections with their blank lines, and the note after a seed. */
  lemma PrintedText(b: Creds)
    ensures Unlines(Layout(b)) ==
            HEADER + "\n\n"
            + (if b.accountToken == "" then "" else SectionText(ACCOUNT_BEGIN, b.accountToken, ACCOUNT_END))
            + (if b.userToken == "" then ""
               else (if b.accountToken != "" then "\n" else "") + SectionText(USER_BEGIN, b.userToken, USER_END))
            + (if b.seed == "" then ""
               else "\n" + SectionText(SEED_BEGIN, b.seed, SEED_END) + ("" + "\n" + STARS + "\n" + WARNING + "\n"))
  {
    UnlinesBlank();
    UserText(b);
    SeedText(b);
    if b.accountToken != "" {
      UnlinesThree(ACCOUNT_BEGIN, TrimSpace(b.accountToken), ACCOUNT_END);
    }
    UnlinesConcat([HEADER, ""], AccountLines(b));
    UnlinesConcat([HEADER, ""] + AccountLines(b), UserLines(b));
    UnlinesConcat([HEADER, ""] + AccountLines(b) + UserLines(b), SeedLines(b));
  }
}
