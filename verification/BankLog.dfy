/** The bank's text log: what the server prints, how it reads it back, and when the two agree. */
module BankLog {
  import CStrings
  import Decimal
  import opened Ledger

  const INITIAL_CLIENTS := 1024
  const LINE_BUFFER := 512
  const MAX_LINE := 256
  const FOOTER := "## end of log."

  // ----- what is printed -----

  function OpText(op: Op): string {
    if op == Deposit then "D" else "W"
  }

  function EntryWord(e: Entry): string {
    " " + OpText(e.op) + " " + Decimal.Print(e.amount)
  }

  function EntryText(h: seq<Entry>): string {
    if h == [] then "" else EntryWord(h[0]) + EntryText(h[1..])
  }

  /** The id, behind a comment mark when the balance is zero. */
  function Head(bankId: string, credits: int): string {
    if credits == 0 then "# " + bankId else bankId
  }

  function Tail(credits: int): string {
    " " + Decimal.Print(credits)
  }

  /** An account's line, without its newline. */
  function Line(a: Account): string {
    Head(a.bankId, a.credits) + EntryText(a.history) + Tail(a.credits)
  }

  function Ended(line: string): string {
    line + "\n"
  }

  function LineText(vs: seq<Account>): string {
    if vs == [] then "" else Ended(Line(vs[0])) + LineText(vs[1..])
  }

  function LogText(header: string, vs: seq<Account>): string {
    Ended(header) + LineText(vs) + Ended(FOOTER)
  }

  /** A header as the server writes it: a comment line naming the log file. */
  predicate IsHeader(header: string) {
    && 0 < |header| < MAX_LINE && header[0] == '#'
    && '\n' !in header && '\0' !in header && CStrings.Contains(header, "Log file")
  }

  // ----- how it is read -----

  /** The lines the reader forms from `text` when `line` is what it has collected so far: a line
      ends at a newline, or when 255 characters are in it, and then the next character is lost. */
  function LinesFrom(text: string, line: string): seq<string> {
    if text == "" then []
    else if text[0] == '\n' || |line| >= MAX_LINE - 1 then [line] + LinesFrom(text[1..], "")
    else LinesFrom(text[1..], line + [text[0]])
  }

  /** The C string at the start of a character array. */
  function CString(s: string): string {
    if s == "" || s[0] == '\0' then "" else [s[0]] + CString(s[1..])
  }

  /** The part of `s` before its first blank. */
  function Word(s: string): (w: string)
    ensures w <= s && ' ' !in w
    ensures |w| < |s| ==> s[|w|] == ' '
  {
    if s == "" || s[0] == ' ' then "" else [s[0]] + Word(s[1..])
  }

  /** What repeated `strtok_r(.., " ")` yields. */
  function Tokens(s: string): seq<string>
    decreases |s|
  {
    if s == "" then []
    else if s[0] == ' ' then Tokens(s[1..])
    else [Word(s)] + Tokens(s[|Word(s)|..])
  }

  /** The operations in the tokens after the id. */
  function EntriesIn(tokens: seq<string>): seq<Entry>
    decreases |tokens|
  {
    if tokens == [] || tokens[0] == "0" then []
    else if tokens[0] == "D" || tokens[0] == "W" then
      if |tokens| == 1 then []
      else [Entry(if tokens[0] == "D" then Deposit else Withdraw, Decimal.Atoi(tokens[1]))] + EntriesIn(tokens[2..])
    else EntriesIn(tokens[1..])
  }

  predicate IsComment(s: string) {
    && s != "" && s[0] == '#'
    && ((|s| > 1 && s[1] == '#') || CStrings.Contains(s, "Log file") || CStrings.Contains(s, "end of log"))
  }

  function Uncommented(s: string): string {
    if s != "" && s[0] == '#' then s[1..] else s
  }

  /** The account in a line, if it holds one. The balance is added up, not read. */
  function AccountIn(line: string): seq<Account> {
    var s := CString(line);
    if IsComment(s) then []
    else
      var tokens := Tokens(Uncommented(s));
      if tokens == [] then []
      else
        var h := EntriesIn(tokens[1..]);
        [Account(tokens[0], Balance(h), h)]
  }

  function AccountsIn(lines: seq<string>): seq<Account> {
    if lines == [] then [] else AccountIn(lines[0]) + AccountsIn(lines[1..])
  }

  function ParseLog(text: string): seq<Account> {
    AccountsIn(LinesFrom(text, ""))
  }

  // ----- the printing loop -----

  /** The slots in use, all of them when the count has outgrown the table. */
  function Used(c: Client): seq<Transaction> {
    if c.transactionCount <= |c.transactions| then c.transactions[..c.transactionCount] else c.transactions
  }

  function Stored(c: Client): Account {
    Account(c.bankId, c.credits, EntriesOf(Used(c)))
  }

  /** Every account is given a table of at least 1024 slots. */
  predicate Tabled(c: Client) {
    MAX_TX_PER_CLIENT <= |c.transactions|
  }

  /** The line, its newline and the closing NUL fit the printing buffer. */
  predicate LineFits(a: Account) {
    |Line(a)| + 1 < LINE_BUFFER
  }

  predicate PrintsAll(vs: seq<Account>)
    ensures PrintsAll(vs) <==> forall i | 0 <= i < |vs| :: LineFits(vs[i])
  {
    vs == [] || (LineFits(vs[0]) && PrintsAll(vs[1..]))
  }

  /** How many lines are written: those before the first that does not fit. */
  function Written(vs: seq<Account>): (k: nat)
    ensures k <= |vs|
  {
    if vs == [] || !LineFits(vs[0]) then 0 else 1 + Written(vs[1..])
  }

  /** What is on disk after a failure: the file was emptied first, and writing stopped at a line. */
  function CutLog(header: string, vs: seq<Account>): string {
    Ended(header) + LineText(vs[..Written(vs)])
  }

  /** What is on disk after the log was rewritten, successfully or not. */
  function LogOnDisk(header: string, vs: seq<Account>): string {
    if PrintsAll(vs) then LogText(header, vs) else CutLog(header, vs)
  }

  lemma Associate(x: string, y: string, z: string)
    ensures x + y + z == x + (y + z)
  {
  }

  lemma EntryTextStep(done: string, h: seq<Entry>, j: nat)
    requires j < |h|
    ensures (done + EntryWord(h[j])) + EntryText(h[j + 1..]) == done + EntryText(h[j..])
    ensures |done| + |EntryWord(h[j])| <= |done + EntryText(h[j..])|
    ensures 4 <= |EntryWord(h[j])|
  {
    assert h[j..][1..] == h[j + 1..];
    Associate(done, EntryWord(h[j]), EntryText(h[j + 1..]));
  }

  /** Appends the history to the 512-character buffer; fails exactly when it does not fit, and always
      before it comes to the end of the table. */
  method AppendEntries(start: string, client: Client) returns (ok: bool, buffer: string)
    requires |start| < LINE_BUFFER && Tabled(client)
    ensures ok <==> |start| + |EntryText(Stored(client).history)| < LINE_BUFFER
    ensures ok ==> buffer == start + EntryText(Stored(client).history)
  {
    ghost var h := Stored(client).history;
    ghost var goal := start + EntryText(h);
    assert h[0..] == h;
    buffer := start;
    var j := 0;
    while j < client.transactionCount
      invariant j <= |h| && buffer + EntryText(h[j..]) == goal
      invariant 4 * j <= |buffer| < LINE_BUFFER
    {
      assert j < |h| && h[j] == EntryOf(client.transactions[j]);
      var written := EntryWord(EntryOf(client.transactions[j]));
      EntryTextStep(buffer, h, j);
      if |written| >= LINE_BUFFER - |buffer| {
        assert |goal| >= LINE_BUFFER;
        return false, buffer;
      }
      buffer := buffer + written;
      j := j + 1;
    }
    assert j == |h| && h[j..] == [];
    assert buffer + "" == buffer;
    ok := true;
  }

  /** One account's line; fails exactly when it does not fit the buffer. */
  method FormatLine(client: Client) returns (ok: bool, buffer: string)
    requires Tabled(client)
    ensures ok <==> LineFits(Stored(client))
    ensures ok ==> buffer == Ended(Line(Stored(client)))
  {
    var start := Head(client.bankId, client.credits);
    var last := Ended(Tail(client.credits));
    assert Ended(Line(Stored(client))) == start + EntryText(Stored(client).history) + last;
    if |start| >= LINE_BUFFER {
      return false, start;
    }
    ok, buffer := AppendEntries(start, client);
    if !ok || |last| >= LINE_BUFFER - |buffer| {
      return false, buffer;
    }
    buffer := buffer + last;
  }

  function StoredAll(db: seq<Client>): (vs: seq<Account>)
    ensures |vs| == |db|
  {
    seq(|db|, i requires 0 <= i < |db| => Stored(db[i]))
  }

  /** What the printing loop writes for the accounts from here on. */
  function WrittenText(vs: seq<Account>): string {
    if vs == [] || !LineFits(vs[0]) then "" else Ended(Line(vs[0])) + WrittenText(vs[1..])
  }

  /** The text stops where the first line does not fit. */
  lemma {:induction false} WrittenIs(vs: seq<Account>)
    ensures WrittenText(vs) == LineText(vs[..Written(vs)])
    ensures Written(vs) == |vs| <==> PrintsAll(vs)
    ensures Written(vs) < |vs| ==> !LineFits(vs[Written(vs)])
    ensures PrintsAll(vs[..Written(vs)])
  {
    if vs != [] && LineFits(vs[0]) {
      WrittenIs(vs[1..]);
      assert vs[..Written(vs)][1..] == vs[1..][..Written(vs[1..])];
    }
  }

  lemma WrittenTextStep(done: string, vs: seq<Account>, i: nat)
    requires i < |vs|
    ensures LineFits(vs[i]) ==>
              (done + Ended(Line(vs[i]))) + WrittenText(vs[i + 1..]) == done + WrittenText(vs[i..])
    ensures !LineFits(vs[i]) ==> WrittenText(vs[i..]) == ""
    ensures PrintsAll(vs[i..]) <==> LineFits(vs[i]) && PrintsAll(vs[i + 1..])
  {
    assert vs[i..][1..] == vs[i + 1..];
    Associate(done, Ended(Line(vs[i])), WrittenText(vs[i + 1..]));
  }

  /** Appends every account's line; stops at the first that does not fit its buffer. */
  method WriteClientLines(start: string, db: seq<Client>) returns (ok: bool, text: string)
    requires forall i | 0 <= i < |db| :: Tabled(db[i])
    ensures ok <==> PrintsAll(StoredAll(db))
    ensures text == start + LineText(StoredAll(db)[..Written(StoredAll(db))])
  {
    ghost var vs := StoredAll(db);
    ghost var goal := start + WrittenText(vs);
    assert vs[0..] == vs;
    WrittenIs(vs);
    text := start;
    for i := 0 to |db|
      invariant text + WrittenText(vs[i..]) == goal
      invariant PrintsAll(vs) <==> PrintsAll(vs[i..])
    {
      var fits, line := FormatLine(db[i]);
      assert vs[i] == Stored(db[i]);
      WrittenTextStep(text, vs, i);
      if !fits {
        return false, text;
      }
      text := text + line;
    }
    assert vs[|db|..] == [];
    ok := true;
  }

  /** Rewrites the whole log; when a line does not fit, the file keeps the lines before it and nothing more. */
  method UpdateLogFile(header: string, db: seq<Client>) returns (ok: bool, text: string)
    requires forall i | 0 <= i < |db| :: Tabled(db[i])
    ensures ok <==> PrintsAll(StoredAll(db))
    ensures text == LogOnDisk(header, StoredAll(db))
  {
    ok, text := WriteClientLines(Ended(header), db);
    if ok {
      WholeIsWritten(StoredAll(db));
      text := text + Ended(FOOTER);
    }
  }

  lemma WholeIsWritten(vs: seq<Account>)
    requires PrintsAll(vs)
    ensures vs[..Written(vs)] == vs
  {
    WrittenIs(vs);
  }

  // ----- the reading loop -----

  /** A loaded account: the operations in its first slots, the rest empty, as in a zeroed table. */
  function Loaded(a: Account): Client {
    var used := seq(|a.history|, i requires 0 <= i < |a.history| =>
                  Transaction(a.bankId, if a.history[i].op == Deposit then DEPOSIT else WITHDRAW, a.history[i].amount));
    var room := if |used| <= MAX_TX_PER_CLIENT then MAX_TX_PER_CLIENT - |used| else 0;
    Client(a.bankId, a.credits, used + seq(room, _ => EMPTY), |used|)
  }

  function LoadedAll(accounts: seq<Account>): (db: seq<Client>)
    ensures |db| == |accounts|
  {
    seq(|accounts|, i requires 0 <= i < |accounts| => Loaded(accounts[i]))
  }

  lemma EntriesStep(done: seq<Entry>, op: Op, amount: string, tokens: seq<string>)
    ensures Balance(done + [Entry(op, Decimal.Atoi(amount))]) == Balance(done) + Signed(Entry(op, Decimal.Atoi(amount)))
    ensures done + [Entry(op, Decimal.Atoi(amount))] + EntriesIn(tokens) == done + EntriesIn([OpText(op), amount] + tokens)
  {
    BalanceSnoc(done, Entry(op, Decimal.Atoi(amount)));
    assert ([OpText(op), amount] + tokens)[2..] == tokens;
  }

  /** The token loop after the id. */
  method ReadEntries(tokens: seq<string>) returns (history: seq<Entry>, credits: int)
    ensures history == EntriesIn(tokens) && credits == Balance(history)
  {
    history, credits := [], 0;
    var k := 0;
    ghost var all := EntriesIn(tokens);
    while k < |tokens|
      invariant 0 <= k <= |tokens|
      invariant all == history + EntriesIn(tokens[k..])
      invariant credits == Balance(history)
    {
      var token := tokens[k];
      k := k + 1;
      if token == "0" {
        break;
      }
      if token != "D" && token != "W" {
        continue;
      }
      if k == |tokens| {
        break;
      }
      var op := if token == "D" then Deposit else Withdraw;
      var amount := Decimal.Atoi(tokens[k]);
      assert tokens[k - 1..] == [OpText(op), tokens[k]] + tokens[k + 1..];
      EntriesStep(history, op, tokens[k], tokens[k + 1..]);
      k := k + 1;
      history := history + [Entry(op, amount)];
      credits := if op == Deposit then credits + amount else credits - amount;
    }
  }

  /** One line: skipped when it is a comment or blank, otherwise an account. */
  method ReadLine(line: string) returns (found: bool, a: Account)
    ensures AccountIn(line) == if found then [a] else []
  {
    a := Account("", 0, []);
    var s := CString(line);
    if s != "" && s[0] == '#' {
      if (|s| > 1 && s[1] == '#') || CStrings.Contains(s, "Log file") || CStrings.Contains(s, "end of log") {
        return false, a;
      }
      s := s[1..];
    }
    var tokens := Tokens(s);
    if tokens == [] {
      return false, a;
    }
    var history, credits := ReadEntries(tokens[1..]);
    return true, Account(tokens[0], credits, history);
  }

  /** An array of twice the size that begins with the same accounts. */
  method Doubled(clients: array<Client>, count: nat) returns (r: array<Client>)
    requires count <= clients.Length && 0 < clients.Length
    ensures fresh(r) && r.Length == 2 * clients.Length && r[..count] == clients[..count]
  {
    r := new Client[2 * clients.Length](_ => Client("", 0, [], 0));
    for i := 0 to count
      invariant r[..i] == clients[..i]
    {
      r[i] := clients[i];
    }
  }

  /** Adds an account behind the others, in an array of its own when this one is full. */
  method LoadClient(clients: array<Client>, count: nat, a: Account) returns (r: array<Client>)
    requires count <= clients.Length && 0 < clients.Length
    modifies clients
    ensures count < r.Length && r[..count + 1] == old(clients[..count]) + [Loaded(a)]
    ensures if count < clients.Length then r == clients else fresh(r)
  {
    r := clients;
    if count >= clients.Length {
      r := Doubled(clients, count);
    }
    r[count] := Loaded(a);
  }

  lemma LoadedAllSnoc(accounts: seq<Account>, a: Account)
    ensures LoadedAll(accounts + [a]) == LoadedAll(accounts) + [Loaded(a)]
  {
  }

  lemma LoadedAllTabled(accounts: seq<Account>)
    ensures forall c | c in LoadedAll(accounts) :: Tabled(c)
  {
  }

  /** The first `count` cells hold the accounts, as loaded. */
  ghost predicate Holds(clients: array<Client>, count: nat, accounts: seq<Account>)
    reads clients
  {
    0 < clients.Length && count <= clients.Length && clients[..count] == LoadedAll(accounts)
  }

  /** Loads the account in a line, if there is one, behind those of the lines before it. */
  method LoadLine(clients: array<Client>, count: nat, line: string, ghost before: seq<Account>)
    returns (r: array<Client>, n: nat)
    requires Holds(clients, count, before)
    modifies clients
    ensures Holds(r, n, before + AccountIn(line))
    ensures count <= n && if n <= clients.Length then r == clients else fresh(r)
  {
    r, n := clients, count;
    var found, a := ReadLine(line);
    if found {
      LoadedAllSnoc(before, a);
      r := LoadClient(clients, count, a);
      n := count + 1;
    } else {
      assert before + [] == before;
    }
  }

  /** The accounts in what has not been read yet, with `line` collected so far. */
  function Unread(text: string, i: nat, line: string): seq<Account>
    requires i <= |text|
  {
    AccountsIn(LinesFrom(text[i..], line))
  }

  lemma UnreadStep(text: string, i: nat, line: string)
    requires i < |text|
    ensures Unread(text, i, line) ==
            if text[i] == '\n' || |line| >= MAX_LINE - 1 then AccountIn(line) + Unread(text, i + 1, "")
            else Unread(text, i + 1, line + [text[i]])
  {
    assert text[i..][1..] == text[i + 1..];
    if text[i] == '\n' || |line| >= MAX_LINE - 1 {
      assert ([line] + LinesFrom(text[i + 1..], ""))[1..] == LinesFrom(text[i + 1..], "");
    }
  }

  lemma AllUnread(text: string)
    ensures Unread(text, 0, "") == ParseLog(text)
    ensures forall line :: Unread(text, |text|, line) == []
  {
    assert text[0..] == text && text[|text|..] == "";
  }

  lemma Regrouped<T>(x: seq<T>, y: seq<T>, z: seq<T>)
    ensures (x + y) + z == x + (y + z)
  {
  }

  /** The character loop: loads every account of the log, in order, and says how many there are. It
      goes on in an array of its own when the caller's is full. */
  method ParseClientsLog(text: string, table: array<Client>) returns (count: nat)
    requires 0 < table.Length
    modifies table
    ensures count == |ParseLog(text)|
    ensures (count <= table.Length && table[..count] == LoadedAll(ParseLog(text))) <==> |ParseLog(text)| <= table.Length
  {
    var clients := table;
    count := 0;
    var line := "";
    ghost var got: seq<Account> := [];
    AllUnread(text);
    for i := 0 to |text|
      invariant ParseLog(text) == got + Unread(text, i, line)
      invariant Holds(clients, count, got)
      invariant clients == table || (table.Length < count && fresh(clients))
    {
      UnreadStep(text, i, line);
      if text[i] == '\n' || |line| >= MAX_LINE - 1 {
        clients, count := LoadLine(clients, count, line, got);
        Regrouped(got, AccountIn(line), Unread(text, i + 1, ""));
        got := got + AccountIn(line);
        line := "";
      } else {
        line := line + [text[i]];
      }
    }
    assert |LoadedAll(got)| == count;
  }

  // ----- accounts that have outgrown their table -----

  lemma {:induction false} EntryTextLong(h: seq<Entry>)
    ensures 4 * |h| <= |EntryText(h)|
  {
    if h != [] { EntryTextLong(h[1..]); }
  }

  /** A history that has filled its table is far too long for the printing buffer. */
  lemma OutgrownDoesNotFit(c: Client)
    requires Tabled(c) && c.transactionCount >= |c.transactions|
    ensures !LineFits(Stored(c))
  {
    EntryTextLong(Stored(c).history);
  }
}
