/** The client credentials file (creds/creds.go): its printer, its strict parser, and what
    the parser recovers from a printed file, whole or cut short. */
module CredsFile {
  import opened Wrappers

  datatype Creds = Creds(accountToken: string, userToken: string, seed: string)

  const VERSION_MARKER := "VALISS-CREDS-VERSION:"
  const ACCOUNT_BEGIN := "-----BEGIN VALISS ACCOUNT TOKEN-----"
  const ACCOUNT_END := "------END VALISS ACCOUNT TOKEN------"
  const USER_BEGIN := "-----BEGIN VALISS USER TOKEN-----"
  const USER_END := "------END VALISS USER TOKEN------"
  const SEED_BEGIN := "-----BEGIN VALISS SEED-----"
  const SEED_END := "------END VALISS SEED------"
  const HEADER := "VALISS-CREDS-VERSION: 1"
  const STARS := "*************************" + " IMPORTANT " + "*************************"
  const WARNING := "Seed lets anyone sign as" + " this identity. Keep it secret."

  // ------------------------------------------------------------------
  // Go's text functions.
  // ------------------------------------------------------------------

  /** unicode.IsSpace. */
  predicate IsSpace(c: char) {
    || '\t' <= c <= '\r' || c == ' ' || c == '\U{85}' || c == '\U{A0}' || c == '\U{1680}'
    || '\U{2000}' <= c <= '\U{200A}' || c == '\U{2028}' || c == '\U{2029}' || c == '\U{202F}'
    || c == '\U{205F}' || c == '\U{3000}'
  }

  function TrimLeft(s: string): string {
    if s != "" && IsSpace(s[0]) then TrimLeft(s[1..]) else s
  }

  function TrimRight(s: string): string {
    if s != "" && IsSpace(s[|s| - 1]) then TrimRight(s[..|s| - 1]) else s
  }

  /** strings.TrimSpace. */
  function TrimSpace(s: string): string {
    TrimRight(TrimLeft(s))
  }

  /** strings.Lines: the lines with their terminators; a last line may lack one. */
  function Lines(s: string): seq<string> {
    if s == "" then [] else Prepend(s[0], Lines(s[1..]))
  }

  /** A character in front of some lines: a line of its own, or the start of the first one. */
  function Prepend(c: char, rest: seq<string>): seq<string> {
    if c == '\n' || rest == [] then [[c]] + rest else [[c] + rest[0]] + rest[1..]
  }

  function TrimAll(ls: seq<string>): (ts: seq<string>)
    ensures |ts| == |ls| && forall i :: 0 <= i < |ls| ==> ts[i] == TrimSpace(ls[i])
  {
    seq(|ls|, i requires 0 <= i < |ls| => TrimSpace(ls[i]))
  }

  /** The trimmed lines both parser passes look at. */
  function TrimmedLines(s: string): seq<string> {
    TrimAll(Lines(s))
  }

  /** strconv.Atoi, as far as deciding whether the value is 1 goes: digits after an optional sign. */
  function Digits(s: string): Option<nat> {
    if s == "" then Some(0)
    else if !('0' <= s[|s| - 1] <= '9') then None
    else match Digits(s[..|s| - 1])
      case None => None
      case Some(n) => Some(10 * n + (s[|s| - 1] as int - '0' as int))
  }

  function Atoi(s: string): Option<int> {
    var negative := s != "" && s[0] == '-';
    var digits := if s != "" && (s[0] == '-' || s[0] == '+') then s[1..] else s;
    if digits == "" then None
    else match Digits(digits)
      case None => None
      case Some(n) => Some(if negative then -(n as int) else n as int)
  }

  function Unlines(ls: seq<string>): string {
    if ls == [] then "" else ls[0] + "\n" + Unlines(ls[1..])
  }

  // ------------------------------------------------------------------
  // Printing.
  // ------------------------------------------------------------------

  function AccountLines(b: Creds): seq<string> {
    if b.accountToken != "" then [ACCOUNT_BEGIN, TrimSpace(b.accountToken), ACCOUNT_END] else []
  }

  function UserLines(b: Creds): seq<string> {
    if b.userToken != "" then
      (if b.accountToken != "" then [""] else []) + [USER_BEGIN, TrimSpace(b.userToken), USER_END]
    else []
  }

  function SeedLines(b: Creds): seq<string> {
    if b.seed != "" then ["", SEED_BEGIN, TrimSpace(b.seed), SEED_END, "", STARS, WARNING] else []
  }

  /** The printed file, line by line. */
  function Layout(b: Creds): seq<string> {
    [HEADER, ""] + AccountLines(b) + UserLines(b) + SeedLines(b)
  }

  lemma {:induction false} UnlinesConcat(xs: seq<string>, ys: seq<string>)
    ensures Unlines(xs + ys) == Unlines(xs) + Unlines(ys)
  {
    if xs == [] {
      assert xs + ys == ys;
    } else {
      UnlinesConcat(xs[1..], ys);
      assert (xs + ys)[1..] == xs[1..] + ys;
    }
  }

  /** Prints a line, or the three lines of a section, at the end of what is printed so far. */
  method PrintLine(sb: string, line: string, ghost done: seq<string>) returns (r: string)
    requires sb == Unlines(done)
    ensures r == Unlines(done + [line])
  {
    r := sb + line + "\n";
    UnlinesConcat(done, [line]);
    assert [line][1..] == [] && Unlines([line]) == line + "\n";
  }

  method PrintSection(sb: string, begin: string, text: string, end: string, ghost done: seq<string>) returns (r: string)
    requires sb == Unlines(done)
    ensures r == Unlines(done + [begin, text, end])
  {
    r := PrintLine(sb, begin, done);
    r := PrintLine(r, text, done + [begin]);
    r := PrintLine(r, end, done + [begin] + [text]);
    assert done + [begin] + [text] + [end] == done + [begin, text, end];
  }

  method PrintUser(sb: string, b: Creds, ghost done: seq<string>) returns (r: string)
    requires sb == Unlines(done)
    ensures r == Unlines(done + UserLines(b))
  {
    if b.userToken == "" {
      assert done + UserLines(b) == done;
      return sb;
    }
    r := sb;
    ghost var before := done;
    if b.accountToken != "" {
      r := PrintLine(r, "", before);
      before := before + [""];
    }
    r := PrintSection(r, USER_BEGIN, TrimSpace(b.userToken), USER_END, before);
    assert before + [USER_BEGIN, TrimSpace(b.userToken), USER_END] == done + UserLines(b);
  }

  method PrintSeed(sb: string, b: Creds, ghost done: seq<string>) returns (r: string)
    requires sb == Unlines(done)
    ensures r == Unlines(done + SeedLines(b))
  {
    if b.seed == "" {
      assert done + SeedLines(b) == done;
      return sb;
    }
    r := PrintLine(sb, "", done);
    r := PrintSection(r, SEED_BEGIN, TrimSpace(b.seed), SEED_END, done + [""]);
    ghost var before := done + [""] + [SEED_BEGIN, TrimSpace(b.seed), SEED_END];
    r := PrintSection(r, "", STARS, WARNING, before);
    assert before + ["", STARS, WARNING] == done + SeedLines(b);
  }

  method Format(b: Creds) returns (text: string)
    ensures text == Unlines(Layout(b))
  {
    var sb := PrintLine("", HEADER, []);
    sb := PrintLine(sb, "", [] + [HEADER]);
    ghost var done := [HEADER, ""];
    assert [] + [HEADER] + [""] == done;
    if b.accountToken != "" {
      sb := PrintSection(sb, ACCOUNT_BEGIN, TrimSpace(b.accountToken), ACCOUNT_END, done);
    } else {
      assert done + AccountLines(b) == done;
    }
    sb := PrintUser(sb, b, done + AccountLines(b));
    text := PrintSeed(sb, b, done + AccountLines(b) + UserLines(b));
  }

  // ------------------------------------------------------------------
  // Parsing.
  // ------------------------------------------------------------------

  /** The first version line decides; with none, the current version is assumed. */
  predicate VersionOk(ls: seq<string>) {
    if ls == [] then true
    else if VERSION_MARKER <= ls[0] then Atoi(TrimSpace(ls[0][|VERSION_MARKER|..])) == Some(1)
    else VersionOk(ls[1..])
  }

  datatype Section = Absent | Found(payload: string) | Broken

  /** One pass for one section, from a given point of its scan. */
  function Scan(ls: seq<string>, begin: string, end: string, inside: bool, payload: string): Section {
    if ls == [] then (if inside then Broken else Absent)
    else if ls[0] == begin then Scan(ls[1..], begin, end, true, payload)
    else if !inside then Scan(ls[1..], begin, end, false, payload)
    else if ls[0] == end then (if payload == "" then Broken else Found(payload))
    else if ls[0] == "" then Scan(ls[1..], begin, end, true, payload)
    else if payload == "" then Scan(ls[1..], begin, end, true, ls[0])
    else Broken
  }

  function SectionOf(contents: string, begin: string, end: string): Section {
    Scan(TrimmedLines(contents), begin, end, false, "")
  }

  function TextOf(s: Section): string {
    if s.Found? then s.payload else ""
  }

  /** What the three independent passes give together; None is an error. */
  function Parsed(contents: string): Option<Creds> {
    var account := SectionOf(contents, ACCOUNT_BEGIN, ACCOUNT_END);
    var user := SectionOf(contents, USER_BEGIN, USER_END);
    var seed := SectionOf(contents, SEED_BEGIN, SEED_END);
    if !VersionOk(TrimmedLines(contents)) || account.Broken? || user.Broken? || seed.Broken?
       || (account.Absent? && user.Absent?)
    then None
    else Some(Creds(TextOf(account), TextOf(user), TextOf(seed)))
  }

  lemma {:induction false} FoundIsNotEmpty(ls: seq<string>, begin: string, end: string, inside: bool, payload: string)
    ensures Scan(ls, begin, end, inside, payload).Found? ==> Scan(ls, begin, end, inside, payload).payload != ""
  {
    if ls != [] {
      FoundIsNotEmpty(ls[1..], begin, end, true, payload);
      FoundIsNotEmpty(ls[1..], begin, end, false, payload);
      FoundIsNotEmpty(ls[1..], begin, end, true, ls[0]);
    }
  }

  method CheckVersion(contents: string) returns (ok: bool)
    ensures ok <==> VersionOk(TrimmedLines(contents))
  {
    var ls := Lines(contents);
    ghost var all := TrimmedLines(contents);
    for i := 0 to |ls|
      invariant VersionOk(all) <==> VersionOk(all[i..])
    {
      var line := TrimSpace(ls[i]);
      assert all[i..][0] == line && all[i..][1..] == all[i + 1..];
      if VERSION_MARKER <= line {
        return Atoi(TrimSpace(line[|VERSION_MARKER|..])) == Some(1);
      }
    }
    return true;
  }

  method Between(contents: string, begin: string, end: string) returns (r: Section)
    ensures r == SectionOf(contents, begin, end)
  {
    var ls := Lines(contents);
    ghost var all := TrimmedLines(contents);
    var inside, payload := false, "";
    for i := 0 to |ls|
      invariant Scan(all, begin, end, false, "") == Scan(all[i..], begin, end, inside, payload)
    {
      var line := TrimSpace(ls[i]);
      assert all[i..][0] == line && all[i..][1..] == all[i + 1..];
      if line == begin {
        inside := true;
      } else if !inside {
      } else if line == end {
        return if payload == "" then Broken else Found(payload);
      } else if line == "" {
      } else if payload == "" {
        payload := line;
      } else {
        return Broken;
      }
    }
    return if inside then Broken else Absent;
  }

  method Parse(contents: string) returns (r: Option<Creds>)
    ensures r == Parsed(contents)
  {
    var version := CheckVersion(contents);
    if !version {
      return None;
    }
    var b := Creds("", "", "");
    var account := Between(contents, ACCOUNT_BEGIN, ACCOUNT_END);
    FoundIsNotEmpty(TrimmedLines(contents), ACCOUNT_BEGIN, ACCOUNT_END, false, "");
    if account.Broken? {
      return None;
    }
    if account.Found? {
      b := b.(accountToken := account.payload);
    }
    var user := Between(contents, USER_BEGIN, USER_END);
    FoundIsNotEmpty(TrimmedLines(contents), USER_BEGIN, USER_END, false, "");
    if user.Broken? {
      return None;
    }
    if user.Found? {
      b := b.(userToken := user.payload);
    }
    if b.accountToken == "" && b.userToken == "" {
      return None;
    }
    var seed := Between(contents, SEED_BEGIN, SEED_END);
    if seed.Broken? {
      return None;
    }
    if seed.Found? {
      b := b.(seed := seed.payload);
    }
    return Some(b);
  }
}
