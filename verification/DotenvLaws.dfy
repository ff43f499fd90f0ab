/** The laws of the dotenv pair: reading after an update, what an update leaves alone, and updating
    twice. */
module DotenvLaws {
  import opened PyStrings
  import opened Dotenv

  /** Keys and values that fit on one `key=value` line. */
  predicate PlainSetting(s: Setting) {
    && s.key != "" && Trimmed(s.key, IsSpace) && s.key[0] != '#' && '=' !in s.key
    && '\n' !in s.key && '\r' !in s.key && '\n' !in s.value && '\r' !in s.value
  }

  predicate PlainUpdates(updates: seq<Setting>) {
    DistinctSettings(updates) && forall i :: 0 <= i < |updates| ==> PlainSetting(updates[i])
  }

  // ── One line ─────────────────────────────────────────────────────────────

  /** `read_env` and `set_env_keys` agree on a line's key. */
  lemma EntryKey(line: string)
    ensures Entry(line).Some? ==> Entry(line).value.key == LineKey(line)
    ensures LineKey(line) != "" && LineKey(line)[0] == '#' ==> Entry(line).None?
  {
    hide StripIf, StripChar;
    var i := Find(line, '=');
    if i == |line| {
      NoSign(line);
    } else {
      SignedLine(line[..i], line[i + 1..]);
      assert line == line[..i] + ['='] + line[i + 1..];
    }
  }

  lemma NoSign(line: string)
    requires '=' !in line
    ensures Entry(line).None?
  {
    hide Clean;
    StripWithin(line);
    FindAbsent(Strip(line), '=');
  }

  /** A line with `=`: both sides are stripped on their own. */
  lemma SignedLine(p: string, q: string)
    requires '=' !in p
    ensures var e, line := Entry(p + ['='] + q), p + ['='] + q;
            && LineKey(line) == Strip(p)
            && (e.Some? <==> Strip(p) == "" || Strip(p)[0] != '#')
            && (e.Some? ==> e.value == Setting(Strip(p), Clean(q)))
  {
    var line := p + ['='] + q;
    FindAt(p, '=', q);
    assert line[..|p|] == p;
    LStripSplits(p, IsSpace);
    RStripSplits(q, IsSpace);
    var p', q' := LStrip(p, IsSpace), RStrip(q, IsSpace);
    StripAtMark(p, '=', q);
    FindAt(p', '=', q');
    var t := p' + ['='] + q';
    assert t[..|p'|] == p' && t[|p'| + 1..] == q';
    StripLeft(p);
    StripRight(q);
    LeadKept(p);
  }

  lemma StripRight(q: string)
    ensures Clean(RStrip(q, IsSpace)) == Clean(q)
  {
    hide LStrip, RStrip, StripIf;
    RStripSplits(q, IsSpace);
    var q' := RStrip(q, IsSpace);
    assert q == [] + q' + q[|q'|..];
    StripAround([], q', q[|q'|..], IsSpace);
  }

  /** The line an update writes says exactly the update. */
  lemma PrintedEntry(s: Setting)
    requires PlainSetting(s)
    ensures Entry(Print(s)) == Some(Setting(s.key, Clean(s.value))) && LineKey(Print(s)) == s.key
    ensures IsLine(Print(s)) && Ended(Print(s))
  {
    hide StripIf, Clean, Entry, LineKey;
    assert Print(s) == s.key + ['='] + (s.value + ['\n']);
    SignedLine(s.key, s.value + ['\n']);
    StripTrimmed(s.key, IsSpace);
    NewlineIgnored(s.value);
  }

  lemma NewlineIgnored(value: string)
    ensures Clean(value + ['\n']) == Clean(value) && Strip(value + ['\n']) == Strip(value)
  {
    hide StripIf;
    assert [] + value + ['\n'] == value + ['\n'];
    StripAround([], value, ['\n'], IsSpace);
  }

  /** Ending a line changes neither what it says nor its key. */
  lemma EndedEntry(line: string)
    ensures Entry(line + ['\n']) == Entry(line) && LineKey(line + ['\n']) == LineKey(line)
  {
    hide StripIf, Clean;
    NewlineIgnored(line);
    var i := Find(line, '=');
    var e := line + ['\n'];
    if i < |line| {
      assert line == line[..i] + ['='] + line[i + 1..] && e == line[..i] + ['='] + (line[i + 1..] + ['\n']);
      FindAt(line[..i], '=', line[i + 1..] + ['\n']);
      assert e[..i] == line[..i];
    } else {
      FindAbsent(line, '=');
      FindAbsent(e, '=');
      assert line[..i] == line && e[..|e|] == e;
    }
  }

  lemma {:induction false} ValueForPlain(updates: seq<Setting>, key: string)
    requires PlainUpdates(updates)
    ensures ValueFor(updates, key).Some? ==> PlainSetting(Setting(key, ValueFor(updates, key).value))
    ensures ValueFor(updates, key).Some? <==> exists i :: 0 <= i < |updates| && updates[i].key == key
  {
    hide PlainSetting;
    if updates != [] {
      ValueForPlain(updates[1..], key);
      if ValueFor(updates[1..], key).Some? {
        var i :| 0 <= i < |updates[1..]| && updates[1..][i].key == key;
        assert updates[i + 1].key == key;
      }
    }
  }

  // ── Reading back ─────────────────────────────────────────────────────────

  /** The old reading overridden by the updates. */
  function Override(env: map<string, string>, updates: seq<Setting>): map<string, string> {
    if updates == [] then env
    else
      var n := |updates| - 1;
      Override(env, updates[..n])[updates[n].key := Clean(updates[n].value)]
  }

  /** The reading of the replaced lines: updated keys that have a line, and the rest as before. */
  lemma {:induction false} ReplacedEnv(lines: seq<string>, updates: seq<Setting>, k: string)
    requires PlainUpdates(updates)
    ensures var was, now, v := Env(lines), Env(ReplacedAll(lines, updates)), ValueFor(updates, k);
            if v.Some? then (k in now <==> HasKey(lines, k)) && (k in now ==> now[k] == Clean(v.value))
            else (k in now <==> k in was) && (k in now ==> now[k] == was[k])
  {
    hide Entry, LineKey, Clean, Print, PlainUpdates, HasKey;
    if lines == [] {
      NoKey(k);
    } else {
      var n := |lines| - 1;
      ReplacedEnv(lines[..n], updates, k);
      assert ReplacedAll(lines, updates)[..n] == ReplacedAll(lines[..n], updates);
      assert lines == lines[..n] + [lines[n]];
      HasKeySnoc(lines[..n], lines[n]);
      EntryKey(lines[n]);
      var key := LineKey(lines[n]);
      ValueForPlain(updates, key);
      if ValueFor(updates, key).Some? {
        PrintedEntry(Setting(key, ValueFor(updates, key).value));
      }
    }
  }

  lemma NoKey(k: string)
    ensures !HasKey([], k)
  {
  }

  lemma {:induction false} EnvSnoc(lines: seq<string>, s: Setting)
    requires PlainSetting(s)
    ensures Env(lines + [Print(s)]) == Env(lines)[s.key := Clean(s.value)]
  {
    hide Entry, Print, PlainSetting;
    PrintedEntry(s);
    assert (lines + [Print(s)])[..|lines|] == lines;
  }

  lemma CompletedEnv(lines: seq<string>)
    ensures Env(Completed(lines)) == Env(lines)
  {
    hide Entry;
    if lines != [] && !Ended(lines[|lines| - 1]) {
      var init, last := lines[..|lines| - 1], lines[|lines| - 1];
      EndedEntry(last);
      assert Completed(lines) == init + [last + ['\n']];
      assert (init + [last + ['\n']])[..|init|] == init;
    }
  }

  /** Adding the missing updates to lines that already have the others overrides with all of them. */
  lemma {:induction false} MissingEnv(lines: seq<string>, base: seq<string>, updates: seq<Setting>, k: string)
    requires PlainUpdates(updates)
    ensures var all := Env(base + Missing(lines, updates));
            if ValueFor(updates, k).Some? && !HasKey(lines, k) then
                          k in all && all[k] == Clean(ValueFor(updates, k).value)
            else (k in all <==> k in Env(base)) && (k in all ==> all[k] == Env(base)[k])
    decreases |updates|
  {
    hide Print, HasKey, Env, Clean, PlainSetting;
    if updates == [] {
      assert base + [] == base;
    } else {
      var n := |updates| - 1;
      var init, u := updates[..n], updates[n];
      MissingEnv(lines, base, init, k);
      ValueForSnoc(init, u, k);
      assert updates == init + [u];
      ValueForPlain(init, u.key);
      if HasKey(lines, u.key) {
        assert Missing(lines, updates) == Missing(lines, init) + [];
        assert Missing(lines, init) + [] == Missing(lines, init);
      } else {
        EnvSnoc(base + Missing(lines, init), u);
        assert base + (Missing(lines, init) + [Print(u)]) == (base + Missing(lines, init)) + [Print(u)];
      }
    }
  }

  lemma {:induction false} ValueForSnoc(init: seq<Setting>, u: Setting, k: string)
    ensures ValueFor(init + [u], k) ==
            if ValueFor(init, k).Some? then ValueFor(init, k) else if u.key == k then Some(u.value) else None
  {
    if init == [] {
      assert [] + [u] == [u];
    } else {
      assert (init + [u])[1..] == init[1..] + [u];
      ValueForSnoc(init[1..], u, k);
    }
  }

  lemma {:induction false} OverrideAt(env: map<string, string>, updates: seq<Setting>, k: string)
    requires DistinctSettings(updates)
    ensures var all, v := Override(env, updates), ValueFor(updates, k);
            if v.Some? then k in all && all[k] == Clean(v.value)
            else (k in all <==> k in env) && (k in all ==> all[k] == env[k])
  {
    hide Clean;
    if updates != [] {
      var n := |updates| - 1;
      OverrideAt(env, updates[..n], k);
      ValueForSnoc(updates[..n], updates[n], k);
      assert updates == updates[..n] + [updates[n]];
      if ValueFor(updates[..n], k).Some? {
        NotAgain(updates, k);
      }
    }
  }

  lemma NotAgain(updates: seq<Setting>, k: string)
    requires DistinctSettings(updates) && updates != [] && ValueFor(updates[..|updates| - 1], k).Some?
    ensures updates[|updates| - 1].key != k
  {
    ValueForIndex(updates[..|updates| - 1], k);
  }

  lemma {:induction false} ValueForIndex(updates: seq<Setting>, key: string)
    ensures ValueFor(updates, key).Some? ==> exists i :: 0 <= i < |updates| && updates[i].key == key
  {
    if updates != [] && updates[0].key != key && ValueFor(updates, key).Some? {
      ValueForIndex(updates[1..], key);
      var i :| 0 <= i < |updates[1..]| && updates[1..][i].key == key;
      assert updates[i + 1].key == key;
    }
  }

  lemma UpdatedEnv(lines: seq<string>, updates: seq<Setting>)
    requires PlainUpdates(updates)
    ensures Env(Updated(lines, updates)) == Override(Env(lines), updates)
  {
    hide Env, Missing, Completed, ReplacedAll, HasKey, PlainSetting, ValueFor, Override, Clean;
    var replaced := ReplacedAll(lines, updates);
    var missing := Missing(lines, updates);
    CompletedEnv(replaced);
    var out := Env(Updated(lines, updates));
    assert replaced + [] == replaced && Completed(replaced) + [] == Completed(replaced);
    assert out == Env(Completed(replaced) + missing);
    forall k
      ensures k in out <==> k in Override(Env(lines), updates)
      ensures k in out ==> out[k] == Override(Env(lines), updates)[k]
    {
      ReplacedEnv(lines, updates, k);
      MissingEnv(lines, Completed(replaced), updates, k);
      OverrideAt(Env(lines), updates, k);
    }
  }

  // ── The file ─────────────────────────────────────────────────────────────

  /** The text `set_env_keys` writes over the text `raw`. */
  function Written(raw: string, updates: seq<Setting>): string {
    Join(Updated(Lines(Universal(raw)), updates))
  }

  lemma ReplacedAreLines(lines: seq<string>, updates: seq<Setting>)
    requires AreLines(lines) && PlainUpdates(updates)
    ensures AreLines(ReplacedAll(lines, updates))
  {
    hide Print, PlainUpdates, Ended, IsLine, LineKey;
    forall i | 0 <= i < |lines|
      ensures IsLine(Replaced(lines[i], updates)) && (Ended(lines[i]) ==> Ended(Replaced(lines[i], updates)))
    {
      var key := LineKey(lines[i]);
      ValueForPlain(updates, key);
      if ValueFor(updates, key).Some? {
        PrintedEntry(Setting(key, ValueFor(updates, key).value));
      }
    }
  }

  predicate AllEnded(lines: seq<string>) {
    forall i :: 0 <= i < |lines| ==> IsLine(lines[i]) && Ended(lines[i])
  }

  lemma CompletedEnded(lines: seq<string>)
    requires AreLines(lines)
    ensures AllEnded(Completed(lines))
  {
    if lines != [] && !Ended(lines[|lines| - 1]) {
      var last := lines[|lines| - 1];
      assert IsLine(last + ['\n']) && Ended(last + ['\n']);
    }
  }

  lemma {:induction false} MissingEnded(lines: seq<string>, updates: seq<Setting>)
    requires PlainUpdates(updates)
    ensures AllEnded(Missing(lines, updates))
  {
    hide Print, PlainSetting, Ended, IsLine, HasKey;
    if updates != [] {
      var n := |updates| - 1;
      MissingEnded(lines, updates[..n]);
      PrintedEntry(updates[n]);
    }
  }

  lemma UpdatedAreLines(lines: seq<string>, updates: seq<Setting>)
    requires AreLines(lines) && PlainUpdates(updates)
    ensures AreLines(Updated(lines, updates))
  {
    hide Missing, Completed, ReplacedAll, Ended, IsLine, PlainUpdates;
    ReplacedAreLines(lines, updates);
    CompletedEnded(ReplacedAll(lines, updates));
    MissingEnded(lines, updates);
  }

  lemma WrittenLines(raw: string, updates: seq<Setting>)
    requires PlainUpdates(updates)
    ensures Lines(Universal(Written(raw, updates))) == Updated(Lines(Universal(raw)), updates)
    ensures AreLines(Lines(Universal(raw)))
  {
    hide Universal, Lines, Join, Updated, AreLines, PlainUpdates;
    UniversalClean(raw);
    LinesAre(Universal(raw));
    UpdatedAreLines(Lines(Universal(raw)), updates);
    LinesBack(Updated(Lines(Universal(raw)), updates));
    UniversalClean(Written(raw, updates));
  }

  /** What `read_env` returns for a file's text. */
  function Read(raw: string): map<string, string> {
    Env(Lines(Universal(raw)))
  }

  /** Reading after an update gives the old reading overridden by the updates, for any file:
      duplicate keys, comments, bare keys, foreign newlines, a missing final newline. */
  lemma ReadAfterSet(raw: string, updates: seq<Setting>)
    requires PlainUpdates(updates)
    ensures Read(Written(raw, updates)) == Override(Read(raw), updates)
  {
    hide Universal, Lines, Join, Updated, PlainUpdates, Env, Override;
    WrittenLines(raw, updates);
    UpdatedEnv(Lines(Universal(raw)), updates);
  }

  predicate AllOf(s: string, c: char) { forall i :: 0 <= i < |s| ==> s[i] == c }

  /** A value between blanks, double quotes and single quotes, in that order and as many of each as there are. */
  function Quoted(before: string, open: string, inOpen: string, value: string, inClose: string, close: string,
                  after: string): string
  {
    before + (open + (inOpen + value + inClose) + close) + after
  }

  /** The double quotes are outermost within the blanks and the single ones within those. */
  predicate ProperlyQuoted(before: string, open: string, inOpen: string, value: string, inClose: string,
                           close: string, after: string)
  {
    var inner := inOpen + value + inClose;
    && AllBlank(before) && AllBlank(after) && Trimmed(open + inner + close, IsSpace)
    && AllOf(open, '"') && AllOf(close, '"') && Trimmed(inner, x => x == '"')
    && AllOf(inOpen, '\'') && AllOf(inClose, '\'') && Trimmed(value, x => x == '\'')
  }

  /** What a value reads as: the blanks and quotes around it go, and what is inside them stays as it is. */
  lemma QuotedReads(before: string, open: string, inOpen: string, value: string, inClose: string, close: string,
                    after: string)
    requires ProperlyQuoted(before, open, inOpen, value, inClose, close, after)
    ensures Clean(Quoted(before, open, inOpen, value, inClose, close, after)) == value
  {
    hide LStrip, RStrip, StripIf;
    var inner := inOpen + value + inClose;
    var whole := open + inner + close;
    StripAround(before, whole, after, IsSpace);
    StripTrimmed(whole, IsSpace);
    StripAround(open, inner, close, x => x == '"');
    StripTrimmed(inner, x => x == '"');
    StripAround(inOpen, value, inClose, x => x == '\'');
    StripTrimmed(value, x => x == '\'');
  }

  /** A line `key = "value"` sets that key to that value, however it is spaced and quoted; the same line after
      a `#` sets nothing. */
  lemma QuotedLineReads(lead: string, key: string, gap: string, before: string, open: string, inOpen: string,
                        value: string, inClose: string, close: string, after: string)
    requires AllBlank(lead) && AllBlank(gap) && '=' !in key && Trimmed(key, IsSpace)
    requires ProperlyQuoted(before, open, inOpen, value, inClose, close, after)
    ensures Entry(lead + key + gap + ['='] + Quoted(before, open, inOpen, value, inClose, close, after)) ==
            if key != "" && key[0] == '#' then None else Some(Setting(key, value))
  {
    hide StripIf, Clean, Entry, ProperlyQuoted, Quoted;
    var q := Quoted(before, open, inOpen, value, inClose, close, after);
    assert '=' !in lead + key + gap by { BlanksHaveNoSign(lead, key, gap); }
    SignedLine(lead + key + gap, q);
    StripAround(lead, key, gap, IsSpace);
    StripTrimmed(key, IsSpace);
    QuotedReads(before, open, inOpen, value, inClose, close, after);
  }

  lemma BlanksHaveNoSign(lead: string, key: string, gap: string)
    requires AllBlank(lead) && AllBlank(gap) && '=' !in key
    ensures '=' !in lead + key + gap
  {
    assert !IsSpace('=');
  }

  /** Line `i` is the last that sets `key`. */
  predicate LastSets(lines: seq<string>, i: nat, key: string) {
    && i < |lines| && Entry(lines[i]).Some? && Entry(lines[i]).value.key == key
    && forall j :: i < j < |lines| && Entry(lines[j]).Some? ==> Entry(lines[j]).value.key != key
  }

  /** A key has the value its last line gives it, and a key without a line has none. */
  lemma {:induction false} LastLineWins(lines: seq<string>, key: string)
    ensures forall i: nat :: LastSets(lines, i, key) ==>
              key in Env(lines) && Env(lines)[key] == Entry(lines[i]).value.value
    ensures key in Env(lines) ==> exists i: nat :: LastSets(lines, i, key)
  {
    hide Entry;
    if lines != [] {
      var n := |lines| - 1;
      LastLineWins(lines[..n], key);
      forall i: nat
        ensures i < n && Entry(lines[n]).Some? && Entry(lines[n]).value.key == key ==> !LastSets(lines, i, key)
        ensures i < n && !(Entry(lines[n]).Some? && Entry(lines[n]).value.key == key) ==>
                  (LastSets(lines, i, key) <==> LastSets(lines[..n], i, key))
      {
        LastSetsEarlier(lines, i, key);
      }
      if Entry(lines[n]).Some? && Entry(lines[n]).value.key == key {
        assert LastSets(lines, n, key);
      } else if key in Env(lines) {
        var i: nat :| LastSets(lines[..n], i, key);
        assert LastSets(lines, i, key);
      }
    }
  }

  lemma LastSetsEarlier(lines: seq<string>, i: nat, key: string)
    requires lines != []
    ensures var n := |lines| - 1;
            i < n ==> (LastSets(lines, i, key) <==>
              LastSets(lines[..n], i, key) && !(Entry(lines[n]).Some? && Entry(lines[n]).value.key == key))
  {
    hide Entry;
    var n := |lines| - 1;
    if i < n && LastSets(lines[..n], i, key) {
      assert forall j :: i < j < n ==> lines[..n][j] == lines[j];
    }
  }

  /** A carriage return, with the line feed after it if there is one, reads as one line feed. */
  lemma {:induction false} NewlinesRead(a: string, b: string)
    requires '\r' !in a
    ensures Universal(a + ['\r', '\n'] + b) == a + ['\n'] + Universal(b)
    ensures (b == "" || b[0] != '\n') ==> Universal(a + ['\r'] + b) == a + ['\n'] + Universal(b)
  {
    if a == "" {
      assert ("" + ['\r', '\n'] + b)[2..] == b && ("" + ['\r'] + b)[1..] == b;
    } else {
      NewlinesRead(a[1..], b);
      assert (a + ['\r', '\n'] + b)[1..] == a[1..] + ['\r', '\n'] + b;
      assert (a + ['\r'] + b)[1..] == a[1..] + ['\r'] + b;
      assert [a[0]] + a[1..] == a;
    }
  }

  // ── What is kept ─────────────────────────────────────────────────────────

  /** A line without its newline. */
  function Body(line: string): string {
    if Ended(line) then line[..|line| - 1] else line
  }

  /** The lines whose key is not updated, in order, newlines aside. */
  function Others(lines: seq<string>, updates: seq<Setting>): seq<string> {
    if lines == [] then []
    else
      var n := |lines| - 1;
      Others(lines[..n], updates)
      + if ValueFor(updates, LineKey(lines[n])).Some? then [] else [Body(lines[n])]
  }

  lemma {:induction false} OthersReplaced(lines: seq<string>, updates: seq<Setting>)
    requires PlainUpdates(updates)
    ensures Others(ReplacedAll(lines, updates), updates) == Others(lines, updates)
  {
    hide PlainUpdates, Print, LineKey, Body;
    if lines != [] {
      var n := |lines| - 1;
      OthersReplaced(lines[..n], updates);
      assert ReplacedAll(lines, updates)[..n] == ReplacedAll(lines[..n], updates);
      var key := LineKey(lines[n]);
      ValueForPlain(updates, key);
      if ValueFor(updates, key).Some? {
        PrintedEntry(Setting(key, ValueFor(updates, key).value));
      }
    }
  }

  lemma OthersCompleted(lines: seq<string>, updates: seq<Setting>)
    ensures Others(Completed(lines), updates) == Others(lines, updates)
  {
    hide LineKey;
    if lines != [] && !Ended(lines[|lines| - 1]) {
      var init, last := lines[..|lines| - 1], lines[|lines| - 1];
      EndedEntry(last);
      assert Completed(lines) == init + [last + ['\n']];
      assert (init + [last + ['\n']])[..|init|] == init;
      assert Body(last + ['\n']) == last == Body(last);
    }
  }

  lemma {:induction false} OthersMissing(lines: seq<string>, base: seq<string>,
          some: seq<Setting>, updates: seq<Setting>)
    requires PlainUpdates(updates) && some <= updates
    ensures Others(base + Missing(lines, some), updates) == Others(base, updates)
  {
    hide PlainSetting, Print, LineKey, HasKey, Body, Others;
    if some == [] {
      assert base + [] == base;
    } else {
      var n := |some| - 1;
      OthersMissing(lines, base, some[..n], updates);
      assert some[n] == updates[n];
      if HasKey(lines, some[n].key) {
        assert Missing(lines, some[..n]) + [] == Missing(lines, some[..n]);
      } else {
        var whole := base + Missing(lines, some[..n]);
        assert base + (Missing(lines, some[..n]) + [Print(some[n])]) == whole + [Print(some[n])];
        PrintedEntry(updates[n]);
        ValueForAt(updates, n);
        OthersSnoc(whole, Print(some[n]), updates);
      }
    }
  }

  lemma OthersSnoc(lines: seq<string>, line: string, updates: seq<Setting>)
    requires ValueFor(updates, LineKey(line)).Some?
    ensures Others(lines + [line], updates) == Others(lines, updates)
  {
    assert (lines + [line])[..|lines|] == lines;
  }

  /** Every line whose key is not updated is kept, verbatim and in order. */
  lemma OthersKept(raw: string, updates: seq<Setting>)
    requires PlainUpdates(updates)
    ensures Others(Lines(Universal(Written(raw, updates))), updates) == Others(Lines(Universal(raw)), updates)
  {
    hide Universal, Lines, Join, PlainUpdates, Others, Missing, Completed, ReplacedAll;
    WrittenLines(raw, updates);
    var lines := Lines(Universal(raw));
    var replaced := ReplacedAll(lines, updates);
    OthersReplaced(lines, updates);
    OthersCompleted(replaced, updates);
    OthersMissing(lines, Completed(replaced), updates, updates);
  }

  // ── Updating twice ───────────────────────────────────────────────────────

  /** A line an update would leave as it is. */
  predicate Settled(line: string, updates: seq<Setting>) {
    Replaced(line, updates) == line
  }

  lemma ReplacedSettled(line: string, updates: seq<Setting>)
    requires PlainUpdates(updates)
    ensures Settled(Replaced(line, updates), updates) && LineKey(Replaced(line, updates)) == LineKey(line)
    ensures ValueFor(updates, LineKey(line)).Some? ==> Ended(Replaced(line, updates))
  {
    hide PlainUpdates, Print, LineKey, Ended;
    var key := LineKey(line);
    ValueForPlain(updates, key);
    if ValueFor(updates, key).Some? {
      PrintedEntry(Setting(key, ValueFor(updates, key).value));
    }
  }

  lemma PrintedSettled(updates: seq<Setting>, i: nat)
    requires PlainUpdates(updates) && i < |updates|
    ensures Settled(Print(updates[i]), updates) && LineKey(Print(updates[i])) == updates[i].key
  {
    hide PlainSetting, Print, LineKey;
    PrintedEntry(updates[i]);
    ValueForAt(updates, i);
  }

  predicate AllSettled(lines: seq<string>, updates: seq<Setting>) {
    forall i :: 0 <= i < |lines| ==> Settled(lines[i], updates)
  }

  lemma CompletedLength(lines: seq<string>)
    ensures |Completed(lines)| == |lines|
  {
  }

  lemma CompletedAt(lines: seq<string>, j: nat)
    requires j < |lines|
    ensures |Completed(lines)| == |lines|
    ensures Completed(lines)[j] == lines[j] || (!Ended(lines[j]) && Completed(lines)[j] == lines[j] + ['\n'])
  {
    hide Ended;
  }

  /** A replaced line, ended or not, stays as it is and keeps its key. */
  lemma CompletedSettled(lines: seq<string>, updates: seq<Setting>, j: nat)
    requires PlainUpdates(updates) && j < |lines|
    ensures var done := Completed(ReplacedAll(lines, updates));
            |done| == |lines| && Settled(done[j], updates) && LineKey(done[j]) == LineKey(lines[j])
  {
    hide PlainUpdates, Print, LineKey, Ended, Completed;
    var line := Replaced(lines[j], updates);
    ReplacedSettled(lines[j], updates);
    CompletedAt(ReplacedAll(lines, updates), j);
    if !Ended(line) {
      EndedEntry(line);
    }
  }

  lemma {:induction false} MissingSettled(lines: seq<string>, some: seq<Setting>, updates: seq<Setting>)
    requires PlainUpdates(updates) && some <= updates
    ensures AllSettled(Missing(lines, some), updates)
    ensures forall i :: 0 <= i < |some| ==> HasKey(lines, some[i].key) || Print(some[i]) in Missing(lines, some)
  {
    hide PlainUpdates, Settled, Print, HasKey;
    if some != [] {
      var n := |some| - 1;
      MissingSettled(lines, some[..n], updates);
      assert some[n] == updates[n];
      PrintedSettled(updates, n);
    }
  }

  lemma UpdatedSettled(lines: seq<string>, updates: seq<Setting>)
    requires PlainUpdates(updates)
    ensures AllSettled(Updated(lines, updates), updates)
  {
    hide PlainUpdates, Settled, Missing, Completed;
    var replaced, done := ReplacedAll(lines, updates), Completed(ReplacedAll(lines, updates));
    CompletedLength(replaced);
    forall i | 0 <= i < |lines|
      ensures Settled(replaced[i], updates) && Settled(done[i], updates)
    {
      ReplacedSettled(lines[i], updates);
      CompletedSettled(lines, updates, i);
    }
    MissingSettled(lines, updates, updates);
    assert AllSettled(replaced, updates) && AllSettled(done, updates);
  }

  /** After an update every updated key has a line. */
  lemma UpdatedHasKeys(lines: seq<string>, updates: seq<Setting>, i: nat)
    requires PlainUpdates(updates) && i < |updates|
    ensures HasKey(Updated(lines, updates), updates[i].key)
  {
    hide PlainUpdates, Print, LineKey, Missing, Completed, Settled;
    var key, out := updates[i].key, Updated(lines, updates);
    MissingSettled(lines, updates, updates);
    if HasKey(lines, key) {
      var j :| 0 <= j < |lines| && LineKey(lines[j]) == key;
      ReplacedSettled(lines[j], updates);
      CompletedSettled(lines, updates, j);
      assert LineKey(out[j]) == key;
    } else {
      var m := Missing(lines, updates);
      var j :| 0 <= j < |m| && m[j] == Print(updates[i]);
      PrintedSettled(updates, i);
      assert out[|out| - |m| + j] == m[j];
    }
  }

  lemma {:induction false} NothingMissing(lines: seq<string>, updates: seq<Setting>)
    requires forall i :: 0 <= i < |updates| ==> HasKey(lines, updates[i].key)
    ensures Missing(lines, updates) == []
  {
    hide HasKey, Print;
    if updates != [] {
      NothingMissing(lines, updates[..|updates| - 1]);
    }
  }

  /** Applying the same update twice gives the same file. */
  lemma SetTwice(raw: string, updates: seq<Setting>)
    requires PlainUpdates(updates)
    ensures Written(Written(raw, updates), updates) == Written(raw, updates)
  {
    hide Universal, Lines, Join, PlainUpdates, Missing, Completed, HasKey, Replaced;
    WrittenLines(raw, updates);
    var lines := Lines(Universal(raw));
    var out := Updated(lines, updates);
    UpdatedSettled(lines, updates);
    forall i | 0 <= i < |updates|
      ensures HasKey(out, updates[i].key)
    {
      UpdatedHasKeys(lines, updates, i);
    }
    NothingMissing(out, updates);
    assert ReplacedAll(out, updates) == out;
  }
}
