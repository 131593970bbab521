/** What parsing recovers from printed creds: everything, exactly when every field prints as
    one line; and from any prefix of the file, whole fields or nothing. */
module CredsRoundTrip {
  import opened Wrappers
  import opened CredsFile

  // ------------------------------------------------------------------
  // Lines and trimming.
  // ------------------------------------------------------------------

  lemma PrependConcat(c: char, head: seq<string>, tail: seq<string>)
    requires c == '\n' || head != []
    ensures Prepend(c, head + tail) == Prepend(c, head) + tail
  {
    if c == '\n' {
      assert [[c]] + (head + tail) == ([[c]] + head) + tail;
    } else {
      assert (head + tail)[0] == head[0] && (head + tail)[1..] == head[1..] + tail;
      assert [[c] + head[0]] + (head[1..] + tail) == ([[c] + head[0]] + head[1..]) + tail;
    }
  }

  lemma {:induction false} LinesConcat(x: string, y: string)
    requires x == "" || x[|x| - 1] == '\n'
    ensures Lines(x + y) == Lines(x) + Lines(y)
  {
    if x == "" {
      assert x + y == y;
    } else {
      LinesConcat(x[1..], y);
      assert (x + y)[1..] == x[1..] + y;
      PrependConcat(x[0], Lines(x[1..]), Lines(y));
    }
  }

  lemma {:induction false} OneLineOnly(l: string)
    requires '\n' !in l
    ensures Lines(l + "\n") == [l + "\n"]
    ensures l != "" ==> Lines(l) == [l]
  {
    if l == "" {
      assert l + "\n" == "\n" && Lines("") == [];
    } else {
      OneLineOnly(l[1..]);
      assert (l + "\n")[1..] == l[1..] + "\n";
      assert [l[0]] + (l[1..] + "\n") == l + "\n" && [l[0]] + l[1..] == l;
    }
  }

  predicate Blank(s: string) {
    forall i :: 0 <= i < |s| ==> IsSpace(s[i])
  }

  /** Nothing left to trim. */
  predicate Tight(s: string) {
    s != "" ==> !IsSpace(s[0]) && !IsSpace(s[|s| - 1])
  }

  lemma {:induction false} TrimLeftFacts(s: string)
    ensures Blank(s) <==> TrimLeft(s) == ""
    ensures TrimLeft(s) != "" ==> !IsSpace(TrimLeft(s)[0]) && TrimLeft(s)[|TrimLeft(s)| - 1] == s[|s| - 1]
  {
    if s != "" && IsSpace(s[0]) {
      TrimLeftFacts(s[1..]);
      assert s == [s[0]] + s[1..];
    }
  }

  lemma {:induction false} TrimRightFacts(s: string)
    requires s != "" ==> !IsSpace(s[0])
    ensures TrimRight(s) <= s && Tight(TrimRight(s))
    ensures s != "" ==> TrimRight(s) != ""
  {
    if s != "" && IsSpace(s[|s| - 1]) {
      TrimRightFacts(s[..|s| - 1]);
    }
  }

  lemma TrimIsTight(s: string)
    ensures Tight(TrimSpace(s))
    ensures Blank(s) <==> TrimSpace(s) == ""
    ensures Tight(s) ==> TrimSpace(s) == s
  {
    TrimLeftFacts(s);
    TrimRightFacts(TrimLeft(s));
  }

  lemma {:induction false} TrimLeftOfLine(l: string)
    ensures TrimLeft(l + "\n") == if Blank(l) then "" else TrimLeft(l) + "\n"
  {
    var s := l + "\n";
    if l == "" {
      assert s == "\n" && s[1..] == "";
    } else if IsSpace(l[0]) {
      TrimLeftOfLine(l[1..]);
      assert s[1..] == l[1..] + "\n";
      assert l == [l[0]] + l[1..];
    }
  }

  lemma TrimOfLine(l: string)
    ensures TrimSpace(l + "\n") == TrimSpace(l)
  {
    TrimLeftOfLine(l);
    TrimLeftFacts(l);
    if !Blank(l) {
      var t := TrimLeft(l) + "\n";
      assert t[..|t| - 1] == TrimLeft(l);
    }
  }

  /** The trimmed lines a printed line becomes; more than one if it has newlines inside. */
  function LinesOf(t: string): seq<string> {
    TrimmedLines(t + "\n")
  }

  predicate SingleLine(t: string) {
    Tight(t) && '\n' !in t
  }

  lemma SingleLineIsItself(t: string)
    requires SingleLine(t)
    ensures LinesOf(t) == [t]
  {
    OneLineOnly(t);
    TrimOfLine(t);
    TrimIsTight(t);
  }

  lemma TrimmedConcat(x: string, y: string)
    requires x == "" || x[|x| - 1] == '\n'
    ensures TrimmedLines(x + y) == TrimmedLines(x) + TrimmedLines(y)
  {
    LinesConcat(x, y);
    TrimAllConcat(Lines(x), Lines(y));
  }

  lemma TrimAllConcat(xs: seq<string>, ys: seq<string>)
    ensures TrimAll(xs + ys) == TrimAll(xs) + TrimAll(ys)
  {
    var left, right := TrimAll(xs + ys), TrimAll(xs) + TrimAll(ys);
    forall i | 0 <= i < |left|
      ensures left[i] == right[i]
    {
      if i < |xs| {
        assert (xs + ys)[i] == xs[i];
      } else {
        assert (xs + ys)[i] == ys[i - |xs|];
      }
    }
  }

  function Flat(ls: seq<string>): seq<string> {
    if ls == [] then [] else LinesOf(ls[0]) + Flat(ls[1..])
  }

  lemma {:induction false} TrimmedUnlines(ls: seq<string>)
    ensures TrimmedLines(Unlines(ls)) == Flat(ls)
    ensures Unlines(ls) == "" || Unlines(ls)[|Unlines(ls)| - 1] == '\n'
  {
    if ls != [] {
      TrimmedUnlines(ls[1..]);
      TrimmedConcat(ls[0] + "\n", Unlines(ls[1..]));
    }
  }

  predicate AllSingle(ls: seq<string>) {
    forall i :: 0 <= i < |ls| ==> SingleLine(ls[i])
  }

  lemma {:induction false} FlatOfSingles(ls: seq<string>)
    requires AllSingle(ls)
    ensures Flat(ls) == ls
  {
    if ls != [] {
      SingleLineIsItself(ls[0]);
      FlatOfSingles(ls[1..]);
    }
  }

  // ------------------------------------------------------------------
  // One section's scan.
  // ------------------------------------------------------------------

  /** Lines before the begin marker are skipped. */
  lemma {:induction false} ScanSkips(pre: seq<string>, ls: seq<string>, begin: string, end: string)
    requires begin !in pre
    ensures Scan(pre + ls, begin, end, false, "") == Scan(ls, begin, end, false, "")
  {
    if pre == [] {
      assert pre + ls == ls;
    } else {
      ScanSkips(pre[1..], ls, begin, end);
      assert (pre + ls)[1..] == pre[1..] + ls;
    }
  }

  /** A section whose begin marker occurs is never reported absent. */
  lemma {:induction false} NotAbsent(ls: seq<string>, begin: string, end: string, inside: bool, payload: string)
    requires inside || begin in ls
    ensures Scan(ls, begin, end, inside, payload) != Absent
  {
    if ls != [] {
      if ls[0] == begin {
        NotAbsent(ls[1..], begin, end, true, payload);
      } else if !inside {
        NotAbsent(ls[1..], begin, end, false, payload);
      } else {
        NotAbsent(ls[1..], begin, end, true, payload);
        NotAbsent(ls[1..], begin, end, true, ls[0]);
      }
    }
  }

  lemma ScanAbsent(ls: seq<string>, begin: string, end: string)
    ensures Scan(ls, begin, end, false, "") == Absent <==> begin !in ls
  {
    if begin in ls {
      NotAbsent(ls, begin, end, false, "");
    } else {
      ScanSkips(ls, [], begin, end);
      assert ls + [] == ls;
    }
  }

  /** What is found is a line of the file. */
  lemma {:induction false} FoundIsALine(ls: seq<string>, begin: string, end: string, inside: bool, payload: string)
    ensures var r := Scan(ls, begin, end, inside, payload);
            r.Found? ==> r.payload in ls || r.payload == payload
  {
    if ls != [] {
      FoundIsALine(ls[1..], begin, end, true, payload);
      FoundIsALine(ls[1..], begin, end, false, payload);
      FoundIsALine(ls[1..], begin, end, true, ls[0]);
    }
  }

  /** The section scanned is the one that opens at the first begin marker. */
  lemma ScanFirst(pre: seq<string>, begin: string, x: string, end: string, post: seq<string>)
    requires begin !in pre && begin != end
    ensures Scan(pre + ([begin, x, end] + post), begin, end, false, "") ==
            if x == "" || x == begin || x == end then Broken else Found(x)
  {
    var ls := [begin, x, end] + post;
    ScanSkips(pre, ls, begin, end);
    var second, third := [x, end] + post, [end] + post;
    assert ls[1..] == second && second[1..] == third && third[0] == end;
    assert Scan(ls, begin, end, false, "") == Scan(second, begin, end, true, "");
    if x == begin || x == "" {
      assert Scan(second, begin, end, true, "") == Scan(third, begin, end, true, "");
    } else if x != end {
      assert Scan(second, begin, end, true, "") == Scan(third, begin, end, true, x);
    }
  }

  /** Once inside with a payload, the section can only end with that payload. */
  lemma {:induction false} PayloadIsFixed(ls: seq<string>, begin: string, end: string, payload: string)
    requires payload != ""
    ensures Scan(ls, begin, end, true, payload) in {Broken, Found(payload)}
  {
    if ls != [] {
      PayloadIsFixed(ls[1..], begin, end, payload);
    }
  }

  /** A begin marker met before the section's own takes the line after it as payload. */
  lemma ScanStray(pre: seq<string>, begin: string, z: string, rest: seq<string>, end: string)
    requires begin !in pre && z != begin && z != end && z != ""
    ensures Scan(pre + ([begin, z] + rest), begin, end, false, "") == Scan(rest, begin, end, true, z)
  {
    var ls := [begin, z] + rest;
    ScanSkips(pre, ls, begin, end);
    assert ls[1..] == [z] + rest && ls[1..][1..] == rest;
  }

  /** Then the section's own line is not what is found. */
  lemma StrayLosesTheLine(pre: seq<string>, begin: string, z: string, x: string, end: string, post: seq<string>)
    requires begin !in pre && z != begin && z != end && z != "" && end != ""
    ensures Scan(pre + ([begin, z] + (["", begin, x] + post)), begin, end, false, "") != Found(x)
  {
    var rest := ["", begin, x] + post;
    ScanStray(pre, begin, z, rest, end);
    PayloadIsFixed(rest, begin, end, z);
    var second, third := [begin, x] + post, [x] + post;
    assert rest[1..] == second && second[1..] == third && third[0] == x;
    assert Scan(rest, begin, end, true, z) == Scan(second, begin, end, true, z);
    assert Scan(second, begin, end, true, z) == Scan(third, begin, end, true, z);
  }

  lemma StrayMeetsAnother(pre: seq<string>, begin: string, z: string, y: string, end: string, post: seq<string>)
    requires begin !in pre && z != begin && z != end && z != ""
    requires y != "" && y != begin && y != end && end != ""
    ensures Scan(pre + ([begin, z] + (["", y] + post)), begin, end, false, "") == Broken
  {
    var rest := ["", y] + post;
    ScanStray(pre, begin, z, rest, end);
    var second := [y] + post;
    assert rest[1..] == second && second[0] == y;
    assert Scan(rest, begin, end, true, z) == Scan(second, begin, end, true, z);
  }

  // ------------------------------------------------------------------
  // The markers.
  // ------------------------------------------------------------------

  predicate Plain(t: string) {
    t != "" && SingleLine(t)
  }

  lemma AccountMarkersArePlain()
    ensures Plain(ACCOUNT_BEGIN) && Plain(ACCOUNT_END)
  {
  }

  lemma UserMarkersArePlain()
    ensures Plain(USER_BEGIN) && Plain(USER_END)
  {
  }

  lemma SeedMarkersArePlain()
    ensures Plain(SEED_BEGIN) && Plain(SEED_END)
  {
  }

  lemma HeaderIsPlain()
    ensures Plain(HEADER)
  {
  }

  lemma StarsArePlain()
    ensures Plain(STARS)
  {
    var rule, title := "*************************", " IMPORTANT ";
    assert '\n' !in rule && '\n' !in title;
    assert STARS == rule + title + rule;
  }

  lemma WarningIsPlain()
    ensures Plain(WARNING)
  {
    var left, right := "Seed lets anyone sign as", " this identity. Keep it secret.";
    assert '\n' !in left && '\n' !in right;
    assert WARNING == left + right;
  }

  lemma MarkersDiffer()
    ensures ACCOUNT_BEGIN !in [HEADER, "", ACCOUNT_END, USER_BEGIN, USER_END, SEED_BEGIN, SEED_END, STARS, WARNING]
    ensures USER_BEGIN !in [HEADER, "", ACCOUNT_BEGIN, ACCOUNT_END, USER_END, SEED_BEGIN, SEED_END, STARS, WARNING]
    ensures SEED_BEGIN !in [HEADER, "", ACCOUNT_BEGIN, ACCOUNT_END, USER_BEGIN, USER_END, SEED_END, STARS, WARNING]
    ensures ACCOUNT_END !in [USER_END, SEED_END] && USER_END != SEED_END
  {
    assert |HEADER| == 23 && |STARS| == 61 && |WARNING| == 55;
    assert |ACCOUNT_BEGIN| == 36 && |ACCOUNT_END| == 36 && ACCOUNT_BEGIN[5] != ACCOUNT_END[5];
    assert |USER_BEGIN| == 33 && |USER_END| == 33 && USER_BEGIN[5] != USER_END[5];
    assert |SEED_BEGIN| == 27 && |SEED_END| == 27 && SEED_BEGIN[5] != SEED_END[5];
  }

  lemma HeaderNamesTheVersion(ls: seq<string>)
    requires ls != [] && ls[0] == HEADER
    ensures VersionOk(ls)
  {
    assert VERSION_MARKER <= HEADER;
    assert HEADER[|VERSION_MARKER|..] == " 1";
    assert " 1"[1..] == "1" && TrimSpace(" 1") == "1";
    assert Digits("1") == Some(1);
  }

  // ------------------------------------------------------------------
  // Lines as the parser sees them hold no newline.
  // ------------------------------------------------------------------

  lemma {:induction false} LinesEndAtNewlines(s: string)
    ensures forall l :: l in Lines(s) ==> l != "" && '\n' !in l[..|l| - 1]
  {
    if s != "" {
      LinesEndAtNewlines(s[1..]);
      var rest := Lines(s[1..]);
      if s[0] != '\n' && rest != [] {
        var first := [s[0]] + rest[0];
        assert first[..|first| - 1] == [s[0]] + rest[0][..|rest[0]| - 1];
      }
    }
  }

  lemma {:induction false} TrimLeftIsSuffix(s: string)
    ensures |TrimLeft(s)| <= |s| && TrimLeft(s) == s[|s| - |TrimLeft(s)|..]
  {
    if s != "" && IsSpace(s[0]) {
      TrimLeftIsSuffix(s[1..]);
    }
  }

  lemma TrimDropsTheNewline(l: string)
    requires l != "" && '\n' !in l[..|l| - 1]
    ensures '\n' !in TrimSpace(l)
  {
    var t, r := TrimLeft(l), TrimSpace(l);
    TrimLeftIsSuffix(l);
    TrimLeftFacts(l);
    TrimRightFacts(t);
    forall i | 0 <= i < |r|
      ensures r[i] != '\n'
    {
      var k := |l| - |t| + i;
      assert r[i] == t[i] == l[k];
      if k < |l| - 1 {
        assert l[k] == l[..|l| - 1][k];
      } else {
        assert r[i] == r[|r| - 1];
      }
    }
  }

  lemma SeenLinesHaveNoNewline(s: string)
    ensures forall l :: l in TrimmedLines(s) ==> '\n' !in l
  {
    LinesEndAtNewlines(s);
    var ls := Lines(s);
    forall i | 0 <= i < |ls|
      ensures '\n' !in TrimmedLines(s)[i]
    {
      TrimDropsTheNewline(ls[i]);
    }
  }

  // ------------------------------------------------------------------
  // The whole file.
  // ------------------------------------------------------------------

  /** A field that, if present, prints as one nonempty line. */
  predicate PrintsAsLine(field: string) {
    field != "" ==> TrimSpace(field) != "" && '\n' !in TrimSpace(field)
  }

  predicate AllPrint(b: Creds) {
    PrintsAsLine(b.accountToken) && PrintsAsLine(b.userToken) && PrintsAsLine(b.seed)
  }

  function Trimmed(b: Creds): Creds {
    Creds(TrimSpace(b.accountToken), TrimSpace(b.userToken), TrimSpace(b.seed))
  }

  lemma FieldIsSingle(field: string)
    requires PrintsAsLine(field)
    ensures SingleLine(TrimSpace(field))
  {
    TrimIsTight(field);
  }

  lemma LayoutIsSingle(b: Creds)
    requires AllPrint(b)
    ensures AllSingle(Layout(b))
  {
    FieldIsSingle(b.accountToken);
    FieldIsSingle(b.userToken);
    FieldIsSingle(b.seed);
    AccountMarkersArePlain();
    UserMarkersArePlain();
    SeedMarkersArePlain();
    HeaderIsPlain();
    StarsArePlain();
    WarningIsPlain();
    assert AllSingle([HEADER, ""]) && AllSingle(AccountLines(b)) && AllSingle(UserLines(b)) && AllSingle(SeedLines(b));
  }

  lemma PrintedLines(b: Creds)
    requires AllPrint(b)
    ensures TrimmedLines(Unlines(Layout(b))) == Layout(b)
  {
    LayoutIsSingle(b);
    FlatOfSingles(Layout(b));
    TrimmedUnlines(Layout(b));
  }

  /** The verdict on a section that gives x back, where "" stands for no section. */
  predicate Gives(r: Section, x: string) {
    if x == "" then r == Absent else r == Found(x)
  }

  predicate AccountClear(b: Creds) {
    var t := Trimmed(b);
    if b.accountToken == "" then t.userToken != ACCOUNT_BEGIN && t.seed != ACCOUNT_BEGIN
    else t.accountToken != ACCOUNT_BEGIN && t.accountToken != ACCOUNT_END
  }

  predicate UserClear(b: Creds) {
    var t := Trimmed(b);
    && t.accountToken != USER_BEGIN
    && (if b.userToken == "" then t.seed != USER_BEGIN else t.userToken != USER_BEGIN && t.userToken != USER_END)
  }

  predicate SeedClear(b: Creds) {
    var t := Trimmed(b);
    && t.accountToken != SEED_BEGIN && t.userToken != SEED_BEGIN
    && (b.seed != "" ==> t.seed != SEED_BEGIN && t.seed != SEED_END)
  }

  /** The creds a file can carry: a token, one line a field, and no line that another section's
      scan, or its own, takes for a marker. */
  predicate Recoverable(b: Creds) {
    && (b.accountToken != "" || b.userToken != "")
    && AllPrint(b) && AccountClear(b) && UserClear(b) && SeedClear(b)
  }

  lemma InLayout(b: Creds, m: string)
    requires m !in [HEADER, ""]
    ensures m in Layout(b) <==> m in AccountLines(b) || m in UserLines(b) || m in SeedLines(b)
  {
    assert m in Layout(b) <==> m in [HEADER, ""] || m in AccountLines(b) || m in UserLines(b) || m in SeedLines(b);
  }

  lemma InAccountLines(b: Creds, m: string)
    ensures m in AccountLines(b) <==> b.accountToken != "" && m in [ACCOUNT_BEGIN, TrimSpace(b.accountToken), ACCOUNT_END]
  {
  }

  lemma InUserLines(b: Creds, m: string)
    requires m != ""
    ensures m in UserLines(b) <==> b.userToken != "" && m in [USER_BEGIN, TrimSpace(b.userToken), USER_END]
  {
  }

  lemma InSeedLines(b: Creds, m: string)
    requires m !in ["", STARS, WARNING]
    ensures m in SeedLines(b) <==> b.seed != "" && m in [SEED_BEGIN, TrimSpace(b.seed), SEED_END]
  {
  }

  /** The lines before the user section, and before the seed section. */
  function UserStart(b: Creds): seq<string> {
    [HEADER, ""] + AccountLines(b) + (if b.accountToken != "" then [""] else [])
  }

  function SeedStart(b: Creds): seq<string> {
    [HEADER, ""] + AccountLines(b) + UserLines(b) + [""]
  }

  lemma Regroup(a: seq<string>, b: seq<string>, c: seq<string>, d: seq<string>)
    ensures a + b + c + d == a + (b + (c + d))
  {
  }

  /** Where each section stands in the file, and that nothing before it opens it. */
  lemma AccountShape(b: Creds)
    requires b.accountToken != ""
    ensures ACCOUNT_BEGIN !in [HEADER, ""]
    ensures Layout(b) == [HEADER, ""] + ([ACCOUNT_BEGIN, TrimSpace(b.accountToken), ACCOUNT_END] + (UserLines(b) + SeedLines(b)))
  {
    MarkersDiffer();
    Regroup([HEADER, ""], AccountLines(b), UserLines(b), SeedLines(b));
  }

  lemma UserShape(b: Creds)
    requires b.userToken != "" && TrimSpace(b.accountToken) != USER_BEGIN
    ensures USER_BEGIN !in UserStart(b)
    ensures Layout(b) == UserStart(b) + ([USER_BEGIN, TrimSpace(b.userToken), USER_END] + SeedLines(b))
  {
    MarkersDiffer();
    InAccountLines(b, USER_BEGIN);
    var lead := if b.accountToken != "" then [""] else [];
    var section := [USER_BEGIN, TrimSpace(b.userToken), USER_END];
    assert UserLines(b) == lead + section;
    var before := [HEADER, ""] + AccountLines(b);
    assert before + (lead + section) + SeedLines(b) == (before + lead) + (section + SeedLines(b));
  }

  lemma SeedShape(b: Creds)
    requires b.seed != "" && TrimSpace(b.accountToken) != SEED_BEGIN && TrimSpace(b.userToken) != SEED_BEGIN
    ensures SEED_BEGIN !in SeedStart(b)
    ensures Layout(b) == SeedStart(b) + ([SEED_BEGIN, TrimSpace(b.seed), SEED_END] + ["", STARS, WARNING])
  {
    var before := [HEADER, ""] + AccountLines(b) + UserLines(b);
    var section := [SEED_BEGIN, TrimSpace(b.seed), SEED_END] + ["", STARS, WARNING];
    assert SeedLines(b) == [""] + section;
    assert before + ([""] + section) == (before + [""]) + section;
    SeedBeginIsFirst(b);
  }

  lemma SeedBeginIsFirst(b: Creds)
    requires TrimSpace(b.accountToken) != SEED_BEGIN && TrimSpace(b.userToken) != SEED_BEGIN
    ensures SEED_BEGIN !in SeedStart(b)
  {
    MarkersDiffer();
    InAccountLines(b, SEED_BEGIN);
    InUserLines(b, SEED_BEGIN);
    assert SEED_BEGIN !in [HEADER, ""] && SEED_BEGIN !in [""];
  }

  /** When an absent section's begin marker is a line of the file all the same. */
  lemma StrayAccount(b: Creds)
    requires b.accountToken == ""
    ensures ACCOUNT_BEGIN in Layout(b) <==> TrimSpace(b.userToken) == ACCOUNT_BEGIN || TrimSpace(b.seed) == ACCOUNT_BEGIN
  {
    MarkersDiffer();
    InLayout(b, ACCOUNT_BEGIN);
    InUserLines(b, ACCOUNT_BEGIN);
    InSeedLines(b, ACCOUNT_BEGIN);
  }

  lemma StrayUser(b: Creds)
    requires b.userToken == ""
    ensures USER_BEGIN in Layout(b) <==> TrimSpace(b.accountToken) == USER_BEGIN || TrimSpace(b.seed) == USER_BEGIN
  {
    MarkersDiffer();
    InLayout(b, USER_BEGIN);
    InAccountLines(b, USER_BEGIN);
    InSeedLines(b, USER_BEGIN);
  }

  lemma StraySeed(b: Creds)
    requires b.seed == ""
    ensures SEED_BEGIN in Layout(b) <==> TrimSpace(b.accountToken) == SEED_BEGIN || TrimSpace(b.userToken) == SEED_BEGIN
  {
    MarkersDiffer();
    InLayout(b, SEED_BEGIN);
    InAccountLines(b, SEED_BEGIN);
    InUserLines(b, SEED_BEGIN);
  }

  lemma AccountRecovered(b: Creds)
    requires AllPrint(b)
    ensures Gives(Scan(Layout(b), ACCOUNT_BEGIN, ACCOUNT_END, false, ""), TrimSpace(b.accountToken)) <==> AccountClear(b)
  {
    if b.accountToken != "" {
      MarkersDiffer();
      AccountShape(b);
      ScanFirst([HEADER, ""], ACCOUNT_BEGIN, TrimSpace(b.accountToken), ACCOUNT_END, UserLines(b) + SeedLines(b));
    } else {
      StrayAccount(b);
      ScanAbsent(Layout(b), ACCOUNT_BEGIN, ACCOUNT_END);
    }
  }

  lemma UserRecovered(b: Creds)
    requires AllPrint(b)
    ensures Gives(Scan(Layout(b), USER_BEGIN, USER_END, false, ""), TrimSpace(b.userToken)) <==> UserClear(b)
  {
    if b.userToken == "" {
      StrayUser(b);
      ScanAbsent(Layout(b), USER_BEGIN, USER_END);
    } else if TrimSpace(b.accountToken) == USER_BEGIN {
      UserStrays(b);
    } else {
      MarkersDiffer();
      UserShape(b);
      ScanFirst(UserStart(b), USER_BEGIN, TrimSpace(b.userToken), USER_END, SeedLines(b));
    }
  }

  lemma UserStrays(b: Creds)
    requires b.userToken != "" && TrimSpace(b.accountToken) == USER_BEGIN
    ensures Scan(Layout(b), USER_BEGIN, USER_END, false, "") != Found(TrimSpace(b.userToken))
  {
    MarkersDiffer();
    var pre, post := [HEADER, "", ACCOUNT_BEGIN], [USER_END] + SeedLines(b);
    var own := ["", USER_BEGIN, TrimSpace(b.userToken)];
    assert AccountLines(b) == [ACCOUNT_BEGIN, USER_BEGIN, ACCOUNT_END] && UserLines(b) == own + [USER_END];
    assert Layout(b) == pre + ([USER_BEGIN, ACCOUNT_END] + (own + post));
    StrayLosesTheLine(pre, USER_BEGIN, ACCOUNT_END, TrimSpace(b.userToken), USER_END, post);
  }

  lemma SeedRecovered(b: Creds)
    requires AllPrint(b)
    ensures Gives(Scan(Layout(b), SEED_BEGIN, SEED_END, false, ""), TrimSpace(b.seed)) <==> SeedClear(b)
  {
    if b.seed == "" {
      StraySeed(b);
      ScanAbsent(Layout(b), SEED_BEGIN, SEED_END);
    } else if TrimSpace(b.accountToken) == SEED_BEGIN {
      if b.userToken != "" {
        SeedStraysBeforeUser(b);
      } else {
        SeedStraysInAccount(b);
      }
    } else if TrimSpace(b.userToken) == SEED_BEGIN {
      SeedStraysInUser(b);
    } else {
      MarkersDiffer();
      SeedShape(b);
      ScanFirst(SeedStart(b), SEED_BEGIN, TrimSpace(b.seed), SEED_END, ["", STARS, WARNING]);
    }
  }

  lemma SeedStraysBeforeUser(b: Creds)
    requires b.seed != "" && b.userToken != "" && TrimSpace(b.accountToken) == SEED_BEGIN
    ensures Scan(Layout(b), SEED_BEGIN, SEED_END, false, "") != Found(TrimSpace(b.seed))
  {
    MarkersDiffer();
    var pre, more := [HEADER, "", ACCOUNT_BEGIN], [TrimSpace(b.userToken), USER_END] + SeedLines(b);
    assert AccountLines(b) == [ACCOUNT_BEGIN, SEED_BEGIN, ACCOUNT_END];
    assert UserLines(b) == ["", USER_BEGIN] + [TrimSpace(b.userToken), USER_END];
    assert Layout(b) == pre + ([SEED_BEGIN, ACCOUNT_END] + (["", USER_BEGIN] + more));
    StrayMeetsAnother(pre, SEED_BEGIN, ACCOUNT_END, USER_BEGIN, SEED_END, more);
  }

  lemma SeedStraysInAccount(b: Creds)
    requires b.seed != "" && b.userToken == "" && TrimSpace(b.accountToken) == SEED_BEGIN
    ensures Scan(Layout(b), SEED_BEGIN, SEED_END, false, "") != Found(TrimSpace(b.seed))
  {
    MarkersDiffer();
    var pre, post := [HEADER, "", ACCOUNT_BEGIN], [SEED_END, "", STARS, WARNING];
    var own := ["", SEED_BEGIN, TrimSpace(b.seed)];
    assert AccountLines(b) == [ACCOUNT_BEGIN, SEED_BEGIN, ACCOUNT_END] && SeedLines(b) == own + post;
    assert Layout(b) == pre + ([SEED_BEGIN, ACCOUNT_END] + (own + post));
    StrayLosesTheLine(pre, SEED_BEGIN, ACCOUNT_END, TrimSpace(b.seed), SEED_END, post);
  }

  lemma SeedStraysInUser(b: Creds)
    requires b.seed != "" && TrimSpace(b.userToken) == SEED_BEGIN && TrimSpace(b.accountToken) != SEED_BEGIN
    ensures Scan(Layout(b), SEED_BEGIN, SEED_END, false, "") != Found(TrimSpace(b.seed))
  {
    var pre, post := UserStart(b) + [USER_BEGIN], [SEED_END, "", STARS, WARNING];
    var own := ["", SEED_BEGIN, TrimSpace(b.seed)];
    assert SeedLines(b) == own + post;
    SeedStrayShape(b, pre, own + post);
    MarkersDiffer();
    InAccountLines(b, SEED_BEGIN);
    assert SEED_BEGIN !in UserStart(b) && SEED_BEGIN !in [USER_BEGIN];
    StrayLosesTheLine(pre, SEED_BEGIN, USER_END, TrimSpace(b.seed), SEED_END, post);
  }

  lemma SeedStrayShape(b: Creds, pre: seq<string>, rest: seq<string>)
    requires TrimSpace(b.userToken) == SEED_BEGIN && pre == UserStart(b) + [USER_BEGIN] && rest == SeedLines(b)
    ensures Layout(b) == pre + ([SEED_BEGIN, USER_END] + rest)
  {
    var lead := if b.accountToken != "" then [""] else [];
    var before := [HEADER, ""] + AccountLines(b);
    assert UserLines(b) == lead + ([USER_BEGIN] + [SEED_BEGIN, USER_END]);
    assert before + (lead + ([USER_BEGIN] + [SEED_BEGIN, USER_END])) + rest ==
           (before + lead + [USER_BEGIN]) + ([SEED_BEGIN, USER_END] + rest);
  }

  lemma {:induction false} FlatKeeps(ls: seq<string>, l: string)
    requires l in ls && SingleLine(l)
    ensures l in Flat(ls)
  {
    SingleLineIsItself(l);
    if ls[0] != l {
      FlatKeeps(ls[1..], l);
    }
  }

  /** A field that prints as no line, or as several, is never given back. */
  lemma MangledIsLost(b: Creds, field: string, begin: string, end: string)
    requires !PrintsAsLine(field) && begin in Layout(b) && SingleLine(begin)
    ensures !Gives(SectionOf(Unlines(Layout(b)), begin, end), TrimSpace(field))
  {
    var text, ls := Unlines(Layout(b)), TrimmedLines(Unlines(Layout(b)));
    TrimmedUnlines(Layout(b));
    FlatKeeps(Layout(b), begin);
    NotAbsent(ls, begin, end, false, "");
    FoundIsALine(ls, begin, end, false, "");
    SeenLinesHaveNoNewline(text);
  }

  lemma MangledCreds(b: Creds)
    requires !AllPrint(b)
    ensures Parsed(Unlines(Layout(b))) != Some(Trimmed(b))
  {
    var text := Unlines(Layout(b));
    ParsedGives(text, Trimmed(b));
    if !PrintsAsLine(b.accountToken) {
      AccountMarkersArePlain();
      assert ACCOUNT_BEGIN in AccountLines(b);
      MangledIsLost(b, b.accountToken, ACCOUNT_BEGIN, ACCOUNT_END);
    } else if !PrintsAsLine(b.userToken) {
      UserMarkersArePlain();
      assert USER_BEGIN in UserLines(b);
      MangledIsLost(b, b.userToken, USER_BEGIN, USER_END);
    } else {
      SeedMarkersArePlain();
      assert SEED_BEGIN in SeedLines(b);
      MangledIsLost(b, b.seed, SEED_BEGIN, SEED_END);
    }
  }

  /** Parsing gives exactly these fields. */
  lemma ParsedGives(contents: string, c: Creds)
    ensures Parsed(contents) == Some(c) <==>
            && VersionOk(TrimmedLines(contents))
            && Gives(SectionOf(contents, ACCOUNT_BEGIN, ACCOUNT_END), c.accountToken)
            && Gives(SectionOf(contents, USER_BEGIN, USER_END), c.userToken)
            && Gives(SectionOf(contents, SEED_BEGIN, SEED_END), c.seed)
            && (c.accountToken != "" || c.userToken != "")
  {
    var ls := TrimmedLines(contents);
    FoundIsNotEmpty(ls, ACCOUNT_BEGIN, ACCOUNT_END, false, "");
    FoundIsNotEmpty(ls, USER_BEGIN, USER_END, false, "");
    FoundIsNotEmpty(ls, SEED_BEGIN, SEED_END, false, "");
  }

  /** Parsing undoes formatting, up to trimming, for exactly the recoverable creds. */
  lemma RoundTrip(b: Creds)
    ensures Parsed(Unlines(Layout(b))) == Some(Trimmed(b)) <==> Recoverable(b)
  {
    if AllPrint(b) {
      PrintedLines(b);
      ParsedGives(Unlines(Layout(b)), Trimmed(b));
      AccountRecovered(b);
      UserRecovered(b);
      SeedRecovered(b);
      HeaderNamesTheVersion(Layout(b));
    } else {
      MangledCreds(b);
    }
  }

  // ------------------------------------------------------------------
  // A file cut short.
  // ------------------------------------------------------------------

  lemma {:induction false} CutText(ls: seq<string>, n: nat) returns (k: nat, p: string)
    requires n <= |Unlines(ls)|
    ensures k <= |ls| && (if k < |ls| then p <= ls[k] else p == "")
    ensures Unlines(ls)[..n] == Unlines(ls[..k]) + p
  {
    if n == 0 {
      k, p := 0, "";
    } else if n <= |ls[0]| {
      k, p := 0, ls[0][..n];
    } else {
      var rest := n - |ls[0]| - 1;
      k, p := CutText(ls[1..], rest);
      assert ls[..k + 1][1..] == ls[1..][..k];
      assert Unlines(ls)[..n] == ls[0] + "\n" + Unlines(ls[1..])[..rest];
      k := k + 1;
    }
  }

  lemma CutLines(ls: seq<string>, n: nat) returns (k: nat, tail: seq<string>)
    requires AllSingle(ls) && n <= |Unlines(ls)|
    ensures k <= |ls| && |tail| <= 1
    ensures TrimmedLines(Unlines(ls)[..n]) == ls[..k] + tail
  {
    var p: string;
    k, p := CutText(ls, n);
    tail := TrimmedLines(p);
    assert '\n' !in p;
    OneLineOnly(p);
    TrimmedUnlines(ls[..k]);
    FlatOfSingles(ls[..k]);
    TrimmedConcat(Unlines(ls[..k]), p);
  }

  /** The scan of a file cut anywhere, with one line left in any state, finds x or nothing. */
  lemma CutSection(pre: seq<string>, begin: string, x: string, end: string, post: seq<string>, k: nat, tail: seq<string>)
    requires begin !in pre && begin != end && x != begin && x != end && x != ""
    requires k <= |pre + ([begin, x, end] + post)| && |tail| <= 1
    ensures Scan((pre + ([begin, x, end] + post))[..k] + tail, begin, end, false, "") in {Absent, Broken, Found(x)}
  {
    var section := [begin, x, end] + post;
    var ls := pre + section;
    if k <= |pre| {
      assert ls[..k] == pre[..k];
      ScanSkips(pre[..k], tail, begin, end);
      NothingOpened(tail, begin, end);
    } else {
      var j := k - |pre|;
      assert ls[..k] + tail == pre + (section[..j] + tail);
      ScanSkips(pre, section[..j] + tail, begin, end);
      if j == 1 {
        assert section[..j] + tail == [begin] + tail;
        CutAfterBegin(begin, tail, end);
      } else if j == 2 {
        assert section[..j] + tail == [begin, x] + tail;
        CutAfterPayload(begin, x, tail, end);
      } else {
        assert [] + (section[..j] + tail) == [] + ([begin, x, end] + (post[..j - 3] + tail));
        ScanFirst([], begin, x, end, post[..j - 3] + tail);
        assert [] + (section[..j] + tail) == section[..j] + tail;
      }
    }
  }

  lemma NothingOpened(tail: seq<string>, begin: string, end: string)
    requires |tail| <= 1
    ensures Scan(tail, begin, end, false, "") in {Absent, Broken}
  {
    if |tail| == 1 {
      assert tail[1..] == [];
    }
  }

  lemma CutAfterBegin(begin: string, tail: seq<string>, end: string)
    requires |tail| <= 1 && begin != end
    ensures Scan([begin] + tail, begin, end, false, "") == Broken
  {
    assert ([begin] + tail)[1..] == tail;
    assert Scan([begin] + tail, begin, end, false, "") == Scan(tail, begin, end, true, "");
    if |tail| == 1 {
      assert tail[1..] == [];
    }
  }

  lemma CutAfterPayload(begin: string, x: string, tail: seq<string>, end: string)
    requires |tail| <= 1 && begin != end && x != begin && x != end && x != ""
    ensures Scan([begin, x] + tail, begin, end, false, "") in {Broken, Found(x)}
  {
    var second := [x] + tail;
    assert ([begin, x] + tail)[1..] == second && second[1..] == tail;
    assert Scan([begin, x] + tail, begin, end, false, "") == Scan(second, begin, end, true, "");
    assert Scan(second, begin, end, true, "") == Scan(tail, begin, end, true, x);
    PayloadIsFixed(tail, begin, end, x);
  }

  /** A section that the file does not have is not found in any part of it. */
  lemma CutWithout(ls: seq<string>, begin: string, end: string, k: nat, tail: seq<string>)
    requires begin !in ls && k <= |ls| && |tail| <= 1
    ensures Scan(ls[..k] + tail, begin, end, false, "") in {Absent, Broken}
  {
    ScanSkips(ls[..k], tail, begin, end);
    NothingOpened(tail, begin, end);
  }

  /** Absent, or the whole of it. */
  predicate WholeOrNone(r: Section, x: string) {
    r == Absent || r == Broken || (x != "" && r == Found(x))
  }

  lemma CutAccount(b: Creds, k: nat, tail: seq<string>)
    requires Recoverable(b) && k <= |Layout(b)| && |tail| <= 1
    ensures WholeOrNone(Scan(Layout(b)[..k] + tail, ACCOUNT_BEGIN, ACCOUNT_END, false, ""), TrimSpace(b.accountToken))
  {
    if b.accountToken != "" {
      MarkersDiffer();
      AccountShape(b);
      CutSection([HEADER, ""], ACCOUNT_BEGIN, TrimSpace(b.accountToken), ACCOUNT_END, UserLines(b) + SeedLines(b), k, tail);
    } else {
      AccountRecovered(b);
      ScanAbsent(Layout(b), ACCOUNT_BEGIN, ACCOUNT_END);
      CutWithout(Layout(b), ACCOUNT_BEGIN, ACCOUNT_END, k, tail);
    }
  }

  lemma CutUser(b: Creds, k: nat, tail: seq<string>)
    requires Recoverable(b) && k <= |Layout(b)| && |tail| <= 1
    ensures WholeOrNone(Scan(Layout(b)[..k] + tail, USER_BEGIN, USER_END, false, ""), TrimSpace(b.userToken))
  {
    if b.userToken != "" {
      MarkersDiffer();
      UserShape(b);
      CutSection(UserStart(b), USER_BEGIN, TrimSpace(b.userToken), USER_END, SeedLines(b), k, tail);
    } else {
      UserRecovered(b);
      ScanAbsent(Layout(b), USER_BEGIN, USER_END);
      CutWithout(Layout(b), USER_BEGIN, USER_END, k, tail);
    }
  }

  lemma CutSeed(b: Creds, k: nat, tail: seq<string>)
    requires Recoverable(b) && k <= |Layout(b)| && |tail| <= 1
    ensures WholeOrNone(Scan(Layout(b)[..k] + tail, SEED_BEGIN, SEED_END, false, ""), TrimSpace(b.seed))
  {
    if b.seed != "" {
      MarkersDiffer();
      SeedShape(b);
      CutSection(SeedStart(b), SEED_BEGIN, TrimSpace(b.seed), SEED_END, ["", STARS, WARNING], k, tail);
    } else {
      SeedRecovered(b);
      ScanAbsent(Layout(b), SEED_BEGIN, SEED_END);
      CutWithout(Layout(b), SEED_BEGIN, SEED_END, k, tail);
    }
  }

  /** Any prefix of a recoverable file fails to parse or yields fields that are each absent or
      intact: never a shortened token or seed. */
  lemma PrefixLosesNoPart(b: Creds, n: nat)
    requires Recoverable(b) && n <= |Unlines(Layout(b))|
    ensures var r := Parsed(Unlines(Layout(b))[..n]);
            r.Some? ==> && r.value.accountToken in {"", TrimSpace(b.accountToken)}
                        && r.value.userToken in {"", TrimSpace(b.userToken)}
                        && r.value.seed in {"", TrimSpace(b.seed)}
  {
    LayoutIsSingle(b);
    var k, tail := CutLines(Layout(b), n);
    CutAccount(b, k, tail);
    CutUser(b, k, tail);
    CutSeed(b, k, tail);
  }
}
