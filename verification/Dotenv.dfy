/** `read_env` and `set_env_keys` of `scripts/generate_kite_tokens.py`: reading a dotenv file and
    replacing some of its keys in place, on the raw text of the file. */
module Dotenv {
  import opened PyStrings

  // ── Lines of a file ──────────────────────────────────────────────────────

  /** What text mode makes of a file's newlines: `\r\n` and `\r` become `\n`. */
  function Universal(raw: string): string {
    if raw == "" then ""
    else if raw[0] == '\r' then "\n" + Universal(if |raw| > 1 && raw[1] == '\n' then raw[2..] else raw[1..])
    else [raw[0]] + Universal(raw[1..])
  }

  /** `readlines()`: every line with its newline, the last one perhaps without. */
  function Lines(text: string): seq<string> {
    if text == "" then []
    else
      var i := Find(text, '\n');
      if i == |text| then [text] else [text[..i + 1]] + Lines(text[i + 1..])
  }

  /** `writelines`: the file's text. */
  function Join(lines: seq<string>): string {
    if lines == [] then "" else lines[0] + Join(lines[1..])
  }

  predicate Ended(line: string) { line != "" && line[|line| - 1] == '\n' }

  /** One line's text: a newline at most at its end, and no carriage return. */
  predicate IsLine(line: string) {
    && line != "" && '\r' !in line && forall i :: 0 <= i < |line| - 1 ==> line[i] != '\n'
  }

  /** What `readlines()` can return. */
  predicate AreLines(lines: seq<string>) {
    && (forall i :: 0 <= i < |lines| ==> IsLine(lines[i]))
    && (forall i :: 0 <= i < |lines| - 1 ==> Ended(lines[i]))
  }

  lemma {:induction false} UniversalClean(raw: string)
    ensures '\r' !in Universal(raw)
    ensures '\r' !in raw ==> Universal(raw) == raw
    decreases |raw|
  {
    if raw != "" {
      if raw[0] == '\r' {
        UniversalClean(if |raw| > 1 && raw[1] == '\n' then raw[2..] else raw[1..]);
      } else {
        UniversalClean(raw[1..]);
      }
    }
  }

  lemma {:induction false} LinesJoin(text: string)
    ensures Join(Lines(text)) == text
    decreases |text|
  {
    if text != "" {
      var i := Find(text, '\n');
      if i < |text| {
        LinesJoin(text[i + 1..]);
        assert text == text[..i + 1] + text[i + 1..];
      } else {
        assert Join([text][1..]) == "";
      }
    }
  }

  lemma {:induction false} LinesAre(text: string)
    requires '\r' !in text
    ensures AreLines(Lines(text))
    decreases |text|
  {
    if text != "" {
      var i := Find(text, '\n');
      if i < |text| {
        LinesAre(text[i + 1..]);
        assert IsLine(text[..i + 1]) && Ended(text[..i + 1]);
        assert Lines(text)[1..] == Lines(text[i + 1..]);
      }
    }
  }

  lemma {:induction false} LinesBack(lines: seq<string>)
    requires AreLines(lines)
    ensures Lines(Join(lines)) == lines && '\r' !in Join(lines)
  {
    if lines != [] {
      var rest := Join(lines[1..]);
      LinesBack(lines[1..]);
      var line := lines[0];
      if Ended(line) {
        FindAt(line[..|line| - 1], '\n', rest);
        assert line[..|line| - 1] + ['\n'] + rest == line + rest;
        assert (line + rest)[..|line|] == line && (line + rest)[|line|..] == rest;
      } else {
        assert |lines| == 1;
        FindAbsent(line, '\n');
        assert line + rest == line;
      }
    }
  }

  // ── Reading ──────────────────────────────────────────────────────────────

  /** `val.strip().strip('"').strip("'")` */
  function Clean(value: string): string {
    StripChar(StripChar(Strip(value), '"'), '\'')
  }

  datatype Setting = Setting(key: string, value: string)

  /** What a line says to `read_env`; nothing for blank lines, comments and lines without `=`. */
  function Entry(line: string): Option<Setting> {
    var t := Strip(line);
    var i := Find(t, '=');
    if t == "" || t[0] == '#' || i == |t| then None
    else Some(Setting(Strip(t[..i]), Clean(t[i + 1..])))
  }

  function Env(lines: seq<string>): map<string, string> {
    if lines == [] then map[]
    else
      var n := |lines| - 1;
      var e := Entry(lines[n]);
      if e.None? then Env(lines[..n]) else Env(lines[..n])[e.value.key := e.value.value]
  }

  lemma EnvStep(lines: seq<string>, i: nat)
    requires i < |lines|
    ensures var e := Entry(lines[i]);
            Env(lines[..i + 1]) == if e.None? then Env(lines[..i]) else Env(lines[..i])[e.value.key := e.value.value]
  {
    hide Entry;
    assert lines[..i + 1][..i] == lines[..i];
  }

  lemma NoEnv()
    ensures forall lines: seq<string> :: Env(lines[..0]) == map[]
  {
  }

  /** `read_env`; None is a file that does not exist. */
  method ReadEnv(file: Option<string>) returns (values: map<string, string>)
    ensures values == if file.None? then map[] else Env(Lines(Universal(file.value)))
  {
    hide Env, Lines, Universal, Strip, Clean;
    values := map[];
    if file.None? {
      return;
    }
    var lines := Lines(Universal(file.value));
    NoEnv();
    for i := 0 to |lines|
      invariant values == Env(lines[..i])
    {
      EnvStep(lines, i);
      var line := Strip(lines[i]);
      var at := Find(line, '=');
      if line == "" || line[0] == '#' || at == |line| {
        continue;
      }
      values := values[Strip(line[..at]) := Clean(line[at + 1..])];
    }
    assert lines[..|lines|] == lines;
  }

  // ── Updating ─────────────────────────────────────────────────────────────

  /** `line.split("=", 1)[0].strip()` */
  function LineKey(line: string): string {
    Strip(line[..Find(line, '=')])
  }

  function ValueFor(updates: seq<Setting>, key: string): Option<string> {
    if updates == [] then None
    else if updates[0].key == key then Some(updates[0].value)
    else ValueFor(updates[1..], key)
  }

  /** `f"{key}={value}\n"` */
  function Print(s: Setting): string { s.key + ['='] + s.value + ['\n'] }

  function Replaced(line: string, updates: seq<Setting>): string {
    var v := ValueFor(updates, LineKey(line));
    if v.Some? then Print(Setting(LineKey(line), v.value)) else line
  }

  function ReplacedAll(lines: seq<string>, updates: seq<Setting>): (r: seq<string>)
    ensures |r| == |lines| && forall i :: 0 <= i < |r| ==> r[i] == Replaced(lines[i], updates)
  {
    seq(|lines|, i requires 0 <= i < |lines| => Replaced(lines[i], updates))
  }

  predicate HasKey(lines: seq<string>, key: string) {
    exists i :: 0 <= i < |lines| && LineKey(lines[i]) == key
  }

  /** The updates no line has a place for, as new lines. */
  function Missing(lines: seq<string>, updates: seq<Setting>): seq<string> {
    if updates == [] then []
    else
      var u := updates[|updates| - 1];
      Missing(lines, updates[..|updates| - 1]) + if HasKey(lines, u.key) then [] else [Print(u)]
  }

  /** The lines with the last one ended. */
  function Completed(lines: seq<string>): seq<string> {
    if lines == [] || Ended(lines[|lines| - 1]) then lines
    else lines[..|lines| - 1] + [lines[|lines| - 1] + ['\n']]
  }

  /** The lines of the file `set_env_keys` writes. */
  function Updated(lines: seq<string>, updates: seq<Setting>): seq<string> {
    var replaced, missing := ReplacedAll(lines, updates), Missing(lines, updates);
    if missing == [] then replaced else Completed(replaced) + missing
  }

  lemma {:induction false} JoinSnoc(lines: seq<string>, line: string)
    ensures Join(lines + [line]) == Join(lines) + line
  {
    if lines != [] {
      JoinSnoc(lines[1..], line);
      assert (lines + [line])[1..] == lines[1..] + [line];
    } else {
      assert ([] + [line])[1..] == [];
    }
  }

  lemma {:induction false} JoinLast(lines: seq<string>)
    requires lines != []
    ensures Join(lines) == Join(lines[..|lines| - 1]) + lines[|lines| - 1]
  {
    hide Join;
    JoinSnoc(lines[..|lines| - 1], lines[|lines| - 1]);
    assert lines[..|lines| - 1] + [lines[|lines| - 1]] == lines;
  }

  lemma {:induction false} JoinCompleted(lines: seq<string>)
    ensures Join(Completed(lines)) ==
            if lines == [] || Ended(lines[|lines| - 1]) then Join(lines) else Join(lines) + ['\n']
  {
    hide Join, Ended;
    if lines != [] && !Ended(lines[|lines| - 1]) {
      var init, last := lines[..|lines| - 1], lines[|lines| - 1];
      JoinLast(lines);
      JoinSnoc(init, last + ['\n']);
      var head := Join(init);
      assert head + (last + ['\n']) == head + last + ['\n'];
    }
  }

  predicate DistinctSettings(updates: seq<Setting>) {
    forall i, j :: 0 <= i < j < |updates| ==> updates[i].key != updates[j].key
  }

  /** `set_env_keys`; None is a file that does not exist, and no file is written then. */
  method SetEnvKeys(file: Option<string>, updates: seq<Setting>) returns (ok: bool, written: Option<string>)
    requires DistinctSettings(updates)
    ensures ok == file.Some? == written.Some?
    ensures ok ==> written == Some(Join(Updated(Lines(Universal(file.value)), updates)))
  {
    hide Join, Lines, Updated, Universal, DistinctSettings;
    if file.None? {
      return false, None;
    }
    var lines := Lines(Universal(file.value));
    var out, seen := ReplaceLines(lines, updates);
    out := AddMissing(lines, out, seen, updates);
    return true, Some(Join(out));
  }

  /** The first loop: replace every line whose key is updated, and remember those keys. */
  method ReplaceLines(lines: seq<string>, updates: seq<Setting>) returns (out: seq<string>, seen: set<string>)
    ensures out == ReplacedAll(lines, updates)
    ensures forall k :: k in seen <==> ValueFor(updates, k).Some? && HasKey(lines, k)
  {
    hide LineKey, ValueFor, Print;
    out, seen := [], {};
    for i := 0 to |lines|
      invariant out == ReplacedAll(lines[..i], updates)
      invariant forall k :: k in seen <==> ValueFor(updates, k).Some? && HasKey(lines[..i], k)
    {
      var line := lines[i];
      assert lines[..i + 1] == lines[..i] + [line];
      var key := LineKey(line);
      HasKeySnoc(lines[..i], line);
      var v := ValueFor(updates, key);
      if v.Some? {
        out := out + [Print(Setting(key, v.value))];
        seen := seen + {key};
      } else {
        out := out + [line];
      }
    }
    assert lines[..|lines|] == lines;
  }

  lemma HasKeySnoc(lines: seq<string>, line: string)
    ensures forall k :: HasKey(lines + [line], k) <==> HasKey(lines, k) || LineKey(line) == k
  {
    hide LineKey;
    forall k
      ensures HasKey(lines + [line], k) <==> HasKey(lines, k) || LineKey(line) == k
    {
      var all := lines + [line];
      assert all[|lines|] == line;
      if HasKey(lines, k) {
        var i :| 0 <= i < |lines| && LineKey(lines[i]) == k;
        assert all[i] == lines[i];
      }
    }
  }

  lemma MissingStep(lines: seq<string>, updates: seq<Setting>, i: nat)
    requires i < |updates|
    ensures var missing := Missing(lines, updates[..i]);
            Missing(lines, updates[..i + 1]) ==
            if HasKey(lines, updates[i].key) then missing else missing + [Print(updates[i])]
  {
    hide HasKey, Print;
    assert updates[..i + 1][..i] == updates[..i];
    assert Missing(lines, updates[..i]) + [] == Missing(lines, updates[..i]);
  }

  /** The second loop: end an open last line, then add the updates no line had a place for. */
  method AddMissing(lines: seq<string>, replaced: seq<string>, seen: set<string>, updates: seq<Setting>)
    returns (out: seq<string>)
    requires DistinctSettings(updates) && replaced == ReplacedAll(lines, updates)
    requires forall k :: k in seen <==> ValueFor(updates, k).Some? && HasKey(lines, k)
    ensures Join(out) == Join(Updated(lines, updates))
  {
    hide LineKey, Join, HasKey, Missing, Completed, ReplacedAll;
    out := replaced;
    JoinCompleted(replaced);
    MissingNone(lines);
    for i := 0 to |updates|
      invariant Missing(lines, updates[..i]) == [] ==> out == replaced
      invariant Missing(lines, updates[..i]) != [] ==>
                  && out != [] && Ended(out[|out| - 1])
                  && Join(out) == Join(Completed(replaced) + Missing(lines, updates[..i]))
    {
      var u := updates[i];
      ValueForAt(updates, i);
      MissingStep(lines, updates, i);
      if u.key in seen {
        continue;
      }
      ghost var whole := Completed(replaced) + Missing(lines, updates[..i]);
      assert whole + [Print(u)] == Completed(replaced) + Missing(lines, updates[..i + 1]);
      JoinSnoc(whole, Print(u));
      assert Missing(lines, updates[..i]) == [] ==> whole == Completed(replaced);
      if out != [] && !Ended(out[|out| - 1]) {
        JoinSnoc(out, "\n");
        out := out + ["\n"];
      }
      assert Join(out) == Join(whole);
      JoinSnoc(out, Print(u));
      out := out + [Print(u)];
    }
    assert updates[..|updates|] == updates;
  }

  lemma MissingNone(lines: seq<string>)
    ensures forall updates: seq<Setting> :: Missing(lines, updates[..0]) == []
  {
  }

  lemma {:induction false} ValueForAt(updates: seq<Setting>, i: nat)
    requires DistinctSettings(updates) && i < |updates|
    ensures ValueFor(updates, updates[i].key) == Some(updates[i].value)
  {
    if i > 0 {
      ValueForAt(updates[1..], i - 1);
    }
  }
}
