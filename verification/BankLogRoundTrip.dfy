/** When reading the log back gives the accounts that were printed. */
module BankLogRoundTrip {
  import opened BankLog
  import CStrings
  import Decimal
  import opened Ledger

  // ----- characters of a printed line -----

  /** None of the characters that mean something to the reader. */
  predicate Plain(s: string) {
    '\n' !in s && '\0' !in s && '#' !in s && 'L' !in s && 'e' !in s
  }

  lemma PlainWord(e: Entry)
    ensures Plain(EntryWord(e))
  {
  }

  lemma {:induction false} PlainEntryText(h: seq<Entry>)
    ensures Plain(EntryText(h))
  {
    if h != [] {
      PlainWord(h[0]);
      PlainEntryText(h[1..]);
    }
  }

  /** An account as the ledger keeps it: a canonical id, and the balance its history adds up to. */
  predicate Kept(a: Account) {
    && a.bankId != "" && ' ' !in a.bankId && Plain(a.bankId)
    && a.credits == Balance(a.history)
  }

  lemma {:induction false} ContainsHead(s: string, sub: string)
    requires sub != "" && CStrings.Contains(s, sub)
    ensures sub[0] in s
    decreases |s|
  {
    if !(sub <= s) { ContainsHead(s[1..], sub); }
  }

  lemma {:induction false} CStringWhole(s: string)
    requires '\0' !in s
    ensures CString(s) == s
  {
    if s != "" { CStringWhole(s[1..]); }
  }

  // ----- splitting into lines -----

  lemma {:induction false} CollectLine(line: string, rest: string, acc: string)
    requires '\n' !in line && |acc| + |line| < MAX_LINE
    ensures LinesFrom(Ended(line) + rest, acc) == [acc + line] + LinesFrom(rest, "")
    decreases |line|
  {
    if line == "" {
      assert (Ended(line) + rest)[1..] == rest;
      assert acc + line == acc;
    } else {
      assert (Ended(line) + rest)[1..] == Ended(line[1..]) + rest;
      CollectLine(line[1..], rest, acc + [line[0]]);
      assert acc + [line[0]] + line[1..] == acc + line;
    }
  }

  /** A longer line is cut after 255 characters and loses the next one. */
  lemma {:induction false} CollectLong(line: string, rest: string, acc: string)
    requires '\n' !in line && |acc| < MAX_LINE <= |acc| + |line|
    ensures var k := MAX_LINE - 1 - |acc|;
            LinesFrom(Ended(line) + rest, acc) == [acc + line[..k]] + LinesFrom(Ended(line[k + 1..]) + rest, "")
    decreases |line|
  {
    assert (Ended(line) + rest)[1..] == Ended(line[1..]) + rest;
    var k := MAX_LINE - 1 - |acc|;
    if k == 0 {
      assert acc + line[..k] == acc;
    } else {
      CollectLong(line[1..], rest, acc + [line[0]]);
      assert acc + [line[0]] + line[1..][..k - 1] == acc + line[..k];
      assert line[1..][k..] == line[k + 1..];
    }
  }

  // ----- tokens of a line -----

  function Spaced(w: string, s: string): string {
    w + " " + s
  }

  lemma {:induction false} WordThen(w: string, s: string)
    requires ' ' !in w
    ensures Word(Spaced(w, s)) == w && Word(w) == w
  {
    if w != "" {
      assert Spaced(w, s)[1..] == Spaced(w[1..], s);
      WordThen(w[1..], s);
    }
  }

  lemma TokensWord(w: string, s: string)
    requires ' ' !in w && w != ""
    ensures Tokens(Spaced(w, s)) == [w] + Tokens(s)
    ensures Tokens(w) == [w]
  {
    WordThen(w, s);
    var all := Spaced(w, s);
    assert all[|w|..] == " " + s;
    assert all[|w|..][1..] == s;
    assert w[|w|..] == "";
  }

  /** The entries and what follows them on the line. */
  function Ending(h: seq<Entry>, p: string): string {
    EntryText(h) + (" " + p)
  }

  lemma Regroup(w: string, op: string, amount: string, entries: string, last: string)
    ensures w + (((" " + op + " " + amount) + entries) + last) == Spaced(w, Spaced(op, amount + (entries + last)))
  {
  }

  lemma EndingCons(w: string, h: seq<Entry>, p: string)
    requires h != []
    ensures w + Ending(h, p) == Spaced(w, Spaced(OpText(h[0].op), Decimal.Print(h[0].amount) + Ending(h[1..], p)))
  {
    Regroup(w, OpText(h[0].op), Decimal.Print(h[0].amount), EntryText(h[1..]), " " + p);
  }

  function EntryTokens(h: seq<Entry>): seq<string> {
    if h == [] then [] else [OpText(h[0].op), Decimal.Print(h[0].amount)] + EntryTokens(h[1..])
  }

  function LastToken(p: string): seq<string> {
    if p == "" then [] else [p]
  }

  lemma EntryTokensCons(h: seq<Entry>, last: seq<string>)
    requires h != []
    ensures EntryTokens(h) + last == [OpText(h[0].op)] + ([Decimal.Print(h[0].amount)] + (EntryTokens(h[1..]) + last))
  {
  }

  lemma {:induction false} TokensOfLine(w: string, h: seq<Entry>, p: string)
    requires ' ' !in w && w != "" && ' ' !in p
    ensures Tokens(w + Ending(h, p)) == [w] + (EntryTokens(h) + LastToken(p))
    decreases |h|
  {
    if h == [] {
      assert w + Ending(h, p) == Spaced(w, p);
      TokensWord(w, p);
      if p != "" { TokensWord(p, ""); }
      assert EntryTokens(h) + LastToken(p) == LastToken(p);
    } else {
      var op, amount := OpText(h[0].op), Decimal.Print(h[0].amount);
      EndingCons(w, h, p);
      var tail := amount + Ending(h[1..], p);
      TokensWord(w, Spaced(op, tail));
      TokensWord(op, tail);
      TokensOfLine(amount, h[1..], p);
      EntryTokensCons(h, LastToken(p));
    }
  }

  lemma {:induction false} EntriesOfTokens(h: seq<Entry>, p: string)
    requires p != "D" && p != "W"
    ensures EntriesIn(EntryTokens(h) + LastToken(p)) == h
    decreases |h|
  {
    var tokens := EntryTokens(h) + LastToken(p);
    if h != [] {
      assert tokens[2..] == EntryTokens(h[1..]) + LastToken(p);
      Decimal.AtoiOfPrint(h[0].amount);
      EntriesOfTokens(h[1..], p);
      assert [h[0]] + h[1..] == h;
    }
  }

  lemma {:induction false} TokensOfBlank(s: string)
    ensures Tokens(" " + s) == Tokens(s)
  {
    assert (" " + s)[1..] == s;
  }

  lemma AccountOfTokens(a: Account, p: string)
    requires Kept(a) && ' ' !in p && p != "D" && p != "W"
    ensures var tokens := Tokens(a.bankId + Ending(a.history, p));
            tokens != [] && tokens[0] == a.bankId && EntriesIn(tokens[1..]) == a.history
  {
    TokensOfLine(a.bankId, a.history, p);
    EntriesOfTokens(a.history, p);
    var last := EntryTokens(a.history) + LastToken(p);
    assert ([a.bankId] + last)[1..] == last;
  }

  lemma NotAComment(s: string)
    requires 'L' !in s && 'e' !in s && (|s| > 1 ==> s[1] != '#')
    ensures !IsComment(s)
  {
    if CStrings.Contains(s, "Log file") { ContainsHead(s, "Log file"); }
    if CStrings.Contains(s, "end of log") { ContainsHead(s, "end of log"); }
  }

  /** A comment mark before a line changes nothing in how it is read. */
  lemma MarkedBody(body: string, marked: bool)
    requires Plain(body)
    ensures var s := if marked then "# " + body else body;
            CString(s) == s && !IsComment(s) && Tokens(Uncommented(s)) == Tokens(body)
  {
    var s := if marked then "# " + body else body;
    if marked {
      assert s[1..] == " " + body;
      TokensOfBlank(body);
    }
    CStringWhole(s);
    NotAComment(s);
  }

  /** A line that ends in the balance, or in all of it but the last digit, gives the account back. */
  lemma AccountInLine(a: Account, p: string)
    requires Kept(a) && Plain(p) && ' ' !in p && p != "D" && p != "W"
    ensures AccountIn(Head(a.bankId, a.credits) + Ending(a.history, p)) == [a]
  {
    var body := a.bankId + Ending(a.history, p);
    PlainEntryText(a.history);
    assert Plain(body);
    AccountOfTokens(a, p);
    MarkedBody(body, a.credits == 0);
    HeadOfBody(a, Ending(a.history, p));
  }

  lemma HeadOfBody(a: Account, more: string)
    ensures Head(a.bankId, a.credits) + more == if a.credits == 0 then "# " + (a.bankId + more) else a.bankId + more
  {
  }

  // ----- one printed line -----

  lemma PlainPrint(z: int, k: nat)
    requires k <= |Decimal.Print(z)|
    ensures Plain(Decimal.Print(z)[..k]) && ' ' !in Decimal.Print(z)[..k]
    ensures Decimal.Print(z)[..k] != "D" && Decimal.Print(z)[..k] != "W"
  {
  }

  lemma PlainLine(a: Account)
    requires Kept(a)
    ensures '\n' !in Line(a) && '\0' !in Line(a) && 'L' !in Line(a) && 'e' !in Line(a)
    ensures Line(a)[0] == '#' ==> a.credits == 0
    ensures a.credits == 0 ==> |Line(a)| > 2 && Line(a)[1] == ' ' && Line(a)[2] != ' '
    ensures a.credits != 0 ==> Line(a)[0] != ' '
    ensures forall i | 0 < i < |Line(a)| :: Line(a)[i] != '#'
    ensures Decimal.IsDigit(Line(a)[|Line(a)| - 1])
  {
    PlainEntryText(a.history);
    PlainPrint(a.credits, |Decimal.Print(a.credits)|);
    assert Decimal.Print(a.credits)[..|Decimal.Print(a.credits)|] == Decimal.Print(a.credits);
    var body := a.bankId + EntryText(a.history) + Tail(a.credits);
    assert Plain(body);
    assert Line(a) == if a.credits == 0 then "# " + body else body;
  }

  lemma DropLast(x: string, y: string, d: string)
    requires d != ""
    ensures (x + (y + (" " + d)))[..|x| + |y| + |d|] == x + (y + (" " + d[..|d| - 1]))
  {
  }

  lemma LineIs(a: Account)
    ensures Line(a) == Head(a.bankId, a.credits) + Ending(a.history, Decimal.Print(a.credits))
  {
    Associate(Head(a.bankId, a.credits), EntryText(a.history), Tail(a.credits));
  }

  lemma WholeLine(a: Account)
    requires Kept(a)
    ensures AccountIn(Line(a)) == [a]
  {
    var digits := Decimal.Print(a.credits);
    PlainPrint(a.credits, |digits|);
    assert digits[..|digits|] == digits;
    AccountInLine(a, digits);
    LineIs(a);
  }

  lemma CutLine(a: Account)
    requires Kept(a)
    ensures AccountIn(Line(a)[..|Line(a)| - 1]) == [a]
  {
    var digits := Decimal.Print(a.credits);
    PlainPrint(a.credits, |digits| - 1);
    AccountInLine(a, digits[..|digits| - 1]);
    LineIs(a);
    DropLast(Head(a.bankId, a.credits), EntryText(a.history), digits);
  }

  lemma FirstLine(line: string, rest: string)
    requires '\n' !in line
    ensures |line| < MAX_LINE ==> LinesFrom(Ended(line) + rest, "") == [line] + LinesFrom(rest, "")
    ensures MAX_LINE <= |line| <= 2 * MAX_LINE - 1 ==>
              LinesFrom(Ended(line) + rest, "") == [line[..MAX_LINE - 1]] + ([line[MAX_LINE..]] + LinesFrom(rest, ""))
  {
    if |line| < MAX_LINE {
      CollectLine(line, rest, "");
      assert "" + line == line;
    } else if |line| <= 2 * MAX_LINE - 1 {
      CollectLong(line, rest, "");
      CollectLine(line[MAX_LINE..], rest, "");
      assert "" + line[..MAX_LINE - 1] == line[..MAX_LINE - 1];
      assert "" + line[MAX_LINE..] == line[MAX_LINE..];
    }
  }

  lemma AccountsInOne(line: string, lines: seq<string>)
    ensures AccountsIn([line] + lines) == AccountIn(line) + AccountsIn(lines)
  {
    assert ([line] + lines)[1..] == lines;
  }

  lemma AccountsInTwo(line: string, next: string, lines: seq<string>)
    ensures AccountsIn([line] + ([next] + lines)) == AccountIn(line) + (AccountIn(next) + AccountsIn(lines))
  {
    AccountsInOne(next, lines);
    AccountsInOne(line, [next] + lines);
  }

  lemma LineOf256(a: Account, lines: seq<string>)
    requires Kept(a) && |Line(a)| == MAX_LINE
    ensures AccountsIn([Line(a)[..MAX_LINE - 1]] + ([Line(a)[MAX_LINE..]] + lines)) == [a] + AccountsIn(lines)
  {
    CutLine(a);
    assert Line(a)[MAX_LINE..] == "" && AccountIn("") == [];
    AccountsInTwo(Line(a)[..MAX_LINE - 1], "", lines);
    assert [] + AccountsIn(lines) == AccountsIn(lines);
  }

  /** Up to 256 characters the line gives back exactly its account: the character that may get
      lost is the last digit of a balance nobody reads. */
  lemma ShortLine(a: Account, rest: string)
    requires Kept(a) && |Line(a)| <= MAX_LINE
    ensures AccountsIn(LinesFrom(Ended(Line(a)) + rest, "")) == [a] + AccountsIn(LinesFrom(rest, ""))
  {
    PlainLine(a);
    FirstLine(Line(a), rest);
    if |Line(a)| < MAX_LINE {
      WholeLine(a);
      AccountsInOne(Line(a), LinesFrom(rest, ""));
    } else {
      LineOf256(a, LinesFrom(rest, ""));
    }
  }

  lemma {:induction false} TokensNonEmpty(s: string, k: nat)
    requires k < |s| && s[k] != ' '
    ensures Tokens(s) != []
    decreases |s|
  {
    if s[0] == ' ' { TokensNonEmpty(s[1..], k - 1); }
  }

  /** A piece of a line with a character in it that is neither a blank nor a leading mark is
      taken for an account. */
  lemma PieceIsAccount(s: string, k: nat)
    requires '\0' !in s && 'L' !in s && 'e' !in s
    requires |s| > 1 ==> s[1] != '#'
    requires k < |s| && s[k] != ' ' && (k == 0 ==> s[0] != '#')
    ensures |AccountIn(s)| == 1
  {
    CStringWhole(s);
    NotAComment(s);
    TokensNonEmpty(Uncommented(s), if s[0] == '#' then k - 1 else k);
  }

  /** A longer line, as far as it can be printed, is taken for two accounts. */
  lemma LongLine(a: Account, rest: string)
    requires Kept(a) && LineFits(a) && |Line(a)| > MAX_LINE
    ensures |AccountsIn(LinesFrom(Ended(Line(a)) + rest, ""))| == 2 + |AccountsIn(LinesFrom(rest, ""))|
  {
    var line := Line(a);
    PlainLine(a);
    FirstLine(line, rest);
    var first, second := line[..MAX_LINE - 1], line[MAX_LINE..];
    PieceIsAccount(first, if a.credits == 0 then 2 else 0);
    assert second[|second| - 1] == line[|line| - 1];
    PieceIsAccount(second, |second| - 1);
    AccountsInTwo(first, second, LinesFrom(rest, ""));
  }

  // ----- the whole log -----

  lemma Cons(vs: seq<Account>, more: seq<Account>)
    requires vs != []
    ensures [vs[0]] + (vs[1..] + more) == vs + more
  {
  }

  lemma LineTextSplit(vs: seq<Account>, rest: string)
    requires vs != []
    ensures LineText(vs) + rest == Ended(Line(vs[0])) + (LineText(vs[1..]) + rest)
  {
    Associate(Ended(Line(vs[0])), LineText(vs[1..]), rest);
  }

  lemma {:induction false} LinesInOrder(vs: seq<Account>, rest: string)
    requires forall i | 0 <= i < |vs| :: Kept(vs[i]) && |Line(vs[i])| <= MAX_LINE
    ensures AccountsIn(LinesFrom(LineText(vs) + rest, "")) == vs + AccountsIn(LinesFrom(rest, ""))
  {
    if vs == [] {
      assert LineText(vs) + rest == rest;
    } else {
      LineTextSplit(vs, rest);
      ShortLine(vs[0], LineText(vs[1..]) + rest);
      LinesInOrder(vs[1..], rest);
      Cons(vs, AccountsIn(LinesFrom(rest, "")));
    }
  }

  function LongLines(vs: seq<Account>): (n: nat)
    ensures n == 0 ==> forall i | 0 <= i < |vs| :: |Line(vs[i])| <= MAX_LINE
  {
    if vs == [] then 0 else (if |Line(vs[0])| > MAX_LINE then 1 else 0) + LongLines(vs[1..])
  }

  lemma {:induction false} LinesCounted(vs: seq<Account>, rest: string)
    requires forall i | 0 <= i < |vs| :: Kept(vs[i])
    requires PrintsAll(vs)
    ensures |AccountsIn(LinesFrom(LineText(vs) + rest, ""))| == |vs| + LongLines(vs) + |AccountsIn(LinesFrom(rest, ""))|
  {
    if vs == [] {
      assert LineText(vs) + rest == rest;
    } else {
      LineTextSplit(vs, rest);
      if |Line(vs[0])| <= MAX_LINE {
        ShortLine(vs[0], LineText(vs[1..]) + rest);
      } else {
        LongLine(vs[0], LineText(vs[1..]) + rest);
      }
      LinesCounted(vs[1..], rest);
    }
  }

  lemma HeaderSkipped(header: string, middle: string)
    requires IsHeader(header)
    ensures AccountsIn(LinesFrom(Ended(header) + middle, "")) == AccountsIn(LinesFrom(middle, ""))
  {
    FirstLine(header, middle);
    CStringWhole(header);
    AccountsInOne(header, LinesFrom(middle, ""));
  }

  lemma FooterSkipped()
    ensures AccountsIn(LinesFrom(Ended(FOOTER), "")) == []
  {
    FirstLine(FOOTER, "");
    assert Ended(FOOTER) + "" == Ended(FOOTER);
    assert FOOTER[0] == '#' && FOOTER[1] == '#';
    CStringWhole(FOOTER);
    AccountsInOne(FOOTER, []);
  }

  /** The log can be written, and reading it gives the same accounts in the same order. */
  ghost predicate RoundTrips(header: string, vs: seq<Account>) {
    PrintsAll(vs) && ParseLog(LogText(header, vs)) == vs
  }

  ghost predicate AllShort(vs: seq<Account>) {
    forall i | 0 <= i < |vs| :: |Line(vs[i])| <= MAX_LINE
  }

  ghost predicate AllKept(vs: seq<Account>) {
    forall i | 0 <= i < |vs| :: Kept(vs[i])
  }

  lemma LogBody(header: string, vs: seq<Account>)
    requires IsHeader(header)
    ensures ParseLog(LogText(header, vs)) == AccountsIn(LinesFrom(LineText(vs) + Ended(FOOTER), ""))
  {
    Associate(Ended(header), LineText(vs), Ended(FOOTER));
    HeaderSkipped(header, LineText(vs) + Ended(FOOTER));
  }

  /** Every line of more than 256 characters makes one account too many. */
  lemma LogCounted(header: string, vs: seq<Account>)
    requires IsHeader(header) && AllKept(vs) && PrintsAll(vs)
    ensures |ParseLog(LogText(header, vs))| == |vs| + LongLines(vs)
  {
    LogBody(header, vs);
    LinesCounted(vs, Ended(FOOTER));
    FooterSkipped();
  }

  /** The round trip, exactly: the log can be written and read back unchanged if and only if no
      account's line is longer than 256 characters. */
  lemma {:induction false} RoundTripIff(header: string, vs: seq<Account>)
    requires IsHeader(header) && AllKept(vs)
    ensures RoundTrips(header, vs) <==> AllShort(vs)
  {
    if AllShort(vs) {
      LogBody(header, vs);
      FooterSkipped();
      LinesInOrder(vs, Ended(FOOTER));
      assert vs + [] == vs;
    } else if PrintsAll(vs) {
      LogCounted(header, vs);
      assert LongLines(vs) > 0;
    }
  }

  /** When a line cannot be printed, the file that is left gives back the accounts before it at best:
      that account and all later ones are gone. */
  lemma {:induction false} CutLogLoses(header: string, vs: seq<Account>)
    requires IsHeader(header)
    ensures var k, read := Written(vs), ParseLog(CutLog(header, vs));
            && (k < |vs| <==> !PrintsAll(vs))
            && (AllKept(vs[..k]) ==> |read| == k + LongLines(vs[..k]))
            && (AllKept(vs[..k]) && AllShort(vs[..k]) ==> read == vs[..k])
  {
    var written := vs[..Written(vs)];
    WrittenIs(vs);
    HeaderSkipped(header, LineText(written));
    assert LineText(written) + "" == LineText(written);
    if AllKept(written) {
      LinesCounted(written, "");
      if AllShort(written) {
        LinesInOrder(written, "");
        assert written + [] == written;
      }
    }
  }

  // ----- from stored accounts to stored accounts -----

  lemma PlainId(i: nat)
    ensures NewId(i) != "" && ' ' !in NewId(i) && Plain(NewId(i))
  {
    PlainPrint(i + 1, |Decimal.Print(i + 1)|);
    assert Decimal.Print(i + 1)[..|Decimal.Print(i + 1)|] == Decimal.Print(i + 1);
    assert Plain("BankID_") && ' ' !in "BankID_";
  }

  lemma KeptView(c: Client, i: nat)
    requires Sound(c) && c.bankId == NewId(i)
    ensures Kept(View(c)) && Stored(c) == View(c)
  {
    PlainId(i);
  }

  lemma LoadedIsSound(a: Account)
    requires a.credits == Balance(a.history) && |a.history| <= MAX_TX_PER_CLIENT
    ensures Sound(Loaded(a)) && View(Loaded(a)) == a && Loaded(a).transactionCount == |a.history|
    ensures forall k | 0 <= k < |a.history| ::
              Loaded(a).transactions[k].bankId == a.bankId && EntryOf(Loaded(a).transactions[k]) == a.history[k]
  {
    var c := Loaded(a);
    assert EntriesOf(c.transactions[..|a.history|]) == a.history;
  }

  // ----- the format, in full -----

  lemma TwoWords(d: Entry, w: Entry)
    ensures EntryText([d, w]) == EntryWord(d) + EntryWord(w)
  {
    assert [d, w][1..] == [w] && [w][1..] == [];
    assert EntryText([w]) == EntryWord(w) + "";
  }

  lemma FullLineLooksLike()
    ensures Line(Account("BankID_1", 70, [Entry(Deposit, 100), Entry(Withdraw, 30)])) == "BankID_1 D 100 W 30 70"
  {
    assert Decimal.Print(100) == "100" && Decimal.Print(30) == "30" && Decimal.Print(70) == "70";
    TwoWords(Entry(Deposit, 100), Entry(Withdraw, 30));
    assert EntryWord(Entry(Deposit, 100)) == " D 100" && EntryWord(Entry(Withdraw, 30)) == " W 30";
    assert Tail(70) == " 70";
  }

  lemma EmptyLineLooksLike(bankId: string)
    ensures Line(Account(bankId, 0, [])) == "# " + bankId + " 0"
  {
    assert Decimal.Print(0) == "0" && EntryText([]) == "";
  }

  lemma LogLooksLike(header: string, a: Account, b: Account)
    ensures LogText(header, [a, b]) ==
            header + "\n" + (Line(a) + "\n" + (Line(b) + "\n")) + "## end of log.\n"
  {
    assert [a, b][1..] == [b] && [b][1..] == [];
    assert LineText([b]) == Ended(Line(b)) + "";
  }

  /** What else the reader does: nothing counts behind a token "0" where an operation should be, other
      tokens are passed over, an operation without an amount ends the line. */
  lemma EntriesRule(tokens: seq<string>)
    ensures EntriesIn(["0"] + tokens) == []
    ensures forall x: string | x != "0" && x != "D" && x != "W" :: EntriesIn([x] + tokens) == EntriesIn(tokens)
    ensures EntriesIn(["D"]) == [] && EntriesIn(["W"]) == []
    ensures forall x: string :: EntriesIn(["D", x] + tokens) == [Entry(Deposit, Decimal.Atoi(x))] + EntriesIn(tokens)
    ensures forall x: string :: EntriesIn(["W", x] + tokens) == [Entry(Withdraw, Decimal.Atoi(x))] + EntriesIn(tokens)
  {
    forall x: string | x != "0" && x != "D" && x != "W" ensures EntriesIn([x] + tokens) == EntriesIn(tokens) {
      assert ([x] + tokens)[1..] == tokens;
    }
    forall x: string
      ensures EntriesIn(["D", x] + tokens) == [Entry(Deposit, Decimal.Atoi(x))] + EntriesIn(tokens)
      ensures EntriesIn(["W", x] + tokens) == [Entry(Withdraw, Decimal.Atoi(x))] + EntriesIn(tokens)
    {
      assert (["D", x] + tokens)[2..] == tokens && (["W", x] + tokens)[2..] == tokens;
    }
  }

  /** Which lines hold no account. */
  lemma SkippedLines(s: string)
    ensures AccountIn("") == [] && AccountIn("#") == [] && AccountIn(" ") == []
    ensures '\0' !in s ==> AccountIn("##" + s) == []
    ensures '\0' !in s && (CStrings.Occurs("Log file", s) || CStrings.Occurs("end of log", s)) ==> AccountIn("#" + s) == []
  {
    assert CString(" ") == " " && CString("#") == "#" && Tokens(" ") == [];
    assert "#"[1..] == "" && " "[1..] == "";
    if '\0' !in s {
      CStringWhole("##" + s);
      CStringWhole("#" + s);
      CStrings.ContainsIff(s, "Log file");
      CStrings.ContainsIff(s, "end of log");
      assert ("#" + s)[1..] == s;
    }
  }
}
