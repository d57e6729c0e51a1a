/** The `.env` file itself: split into lines, reconciled, and written back only when something changed. */
module EnvFile {
  import opened Text
  import opened EnvReconcile

  /** What `str.splitlines` splits at. */
  predicate IsSeparator(ch: char) {
    '\n' <= ch <= '\r' || '\U{1C}' <= ch <= '\U{1E}' || ch == '\U{85}' || ch == '\U{2028}' || ch == '\U{2029}'
  }

  predicate Clean(line: string) {
    forall i :: 0 <= i < |line| ==> !IsSeparator(line[i])
  }

  /** Where the first line ends. */
  function LineEnd(s: string): (n: nat)
    ensures n <= |s| && Clean(s[..n]) && (n < |s| ==> IsSeparator(s[n]))
  {
    if s == [] || IsSeparator(s[0]) then 0 else
      assert s[..1 + LineEnd(s[1..])] == [s[0]] + s[1..][..LineEnd(s[1..])];
      1 + LineEnd(s[1..])
  }

  /** `str.splitlines()`: "\r\n" is one separator, and none opens a last empty line. */
  function SplitLines(s: string): seq<string>
    decreases |s|
  {
    if s == [] then []
    else
      var n := LineEnd(s);
      if n == |s| then [s]
      else [s[..n]] + SplitLines(s[n + (if s[n] == '\r' && n + 1 < |s| && s[n + 1] == '\n' then 2 else 1)..])
  }

  /** `"\n".join(lines)` */
  function Joined(lines: seq<string>): string {
    if lines == [] then "" else if |lines| == 1 then lines[0] else lines[0] + "\n" + Joined(lines[1..])
  }

  /** What is written for the lines. */
  function Written(lines: seq<string>): string {
    Joined(lines) + "\n"
  }

  // ------------------------------------------------------- write and split

  ghost predicate AllClean(lines: seq<string>) {
    forall i :: 0 <= i < |lines| ==> Clean(lines[i])
  }

  lemma {:induction false} SplitIsClean(s: string)
    ensures AllClean(SplitLines(s))
    decreases |s|
  {
    if s != [] && LineEnd(s) < |s| {
      var n := LineEnd(s);
      SplitIsClean(s[n + (if s[n] == '\r' && n + 1 < |s| && s[n + 1] == '\n' then 2 else 1)..]);
    } else if s != [] {
      assert s[..|s|] == s;
    }
  }

  lemma {:induction false} EndOfClean(line: string, rest: string)
    requires Clean(line)
    ensures LineEnd(line + "\n" + rest) == |line|
    decreases |line|
  {
    var s := line + "\n" + rest;
    if line != [] {
      assert s[0] == line[0] && s[1..] == line[1..] + "\n" + rest;
      EndOfClean(line[1..], rest);
    }
  }

  lemma SplitFirstLine(line: string, rest: string)
    requires Clean(line)
    ensures SplitLines(line + "\n" + rest) == [line] + SplitLines(rest)
  {
    var s := line + "\n" + rest;
    EndOfClean(line, rest);
    assert s[|line|] == '\n' && s[..|line|] == line && s[|line| + 1..] == rest;
  }

  /** The separators are the ten characters that `str.splitlines` names. */
  lemma SeparatorIff(ch: char)
    ensures IsSeparator(ch) <==>
      ch in {'\n', '\r', '\U{0B}', '\U{0C}', '\U{1C}', '\U{1D}', '\U{1E}', '\U{85}', '\U{2028}', '\U{2029}'}
  {
  }

  lemma EndAtSeparator(line: string, ch: char, rest: string)
    requires Clean(line) && IsSeparator(ch)
    ensures LineEnd(line + [ch] + rest) == |line|
    decreases |line|
  {
    var s := line + [ch] + rest;
    if line != [] {
      assert s[0] == line[0] && s[1..] == line[1..] + [ch] + rest;
      EndAtSeparator(line[1..], ch, rest);
    }
  }

  /** What splitting does: a line ends at the first separator, a return and line feed being one, and so on. */
  lemma SplitAtSeparator(line: string, ch: char, rest: string)
    requires Clean(line) && IsSeparator(ch)
    ensures ch != '\r' || rest == [] || rest[0] != '\n' ==>
              SplitLines(line + [ch] + rest) == [line] + SplitLines(rest)
    ensures SplitLines(line + ['\r'] + ['\n'] + rest) == [line] + SplitLines(rest)
    ensures line != [] ==> SplitLines(line) == [line]
  {
    var s := line + [ch] + rest;
    EndAtSeparator(line, ch, rest);
    assert s[..|line|] == line && s[|line|] == ch && s[|line| + 1..] == rest;
    var t := line + ['\r'] + (['\n'] + rest);
    assert line + ['\r'] + ['\n'] + rest == t;
    EndAtSeparator(line, '\r', ['\n'] + rest);
    assert t[..|line|] == line && t[|line|] == '\r' && t[|line| + 1] == '\n' && t[|line| + 2..] == rest;
    if line != [] {
      EndOfAll(line);
    }
  }

  lemma EndOfAll(line: string)
    requires Clean(line)
    ensures LineEnd(line) == |line|
  {
  }

  lemma WrittenFirst(lines: seq<string>)
    requires lines != []
    ensures Written(lines) == lines[0] + "\n" + if |lines| == 1 then "" else Written(lines[1..])
  {
    if |lines| > 1 {
      assert lines[0] + "\n" + Joined(lines[1..]) + "\n" == lines[0] + "\n" + (Joined(lines[1..]) + "\n");
    }
  }

  lemma {:induction false} CleanLinesComeBack(lines: seq<string>)
    requires lines != [] && AllClean(lines)
    ensures SplitLines(Written(lines)) == lines
    decreases |lines|
  {
    WrittenFirst(lines);
    if |lines| == 1 {
      SplitFirstLine(lines[0], "");
      assert [lines[0]] == lines;
    } else {
      SplitFirstLine(lines[0], Written(lines[1..]));
      CleanLinesComeBack(lines[1..]);
      assert [lines[0]] + lines[1..] == lines;
    }
  }

  /** Lines come back from the file as they were written if and only if none holds a line separator. */
  lemma LinesComeBackIff(lines: seq<string>)
    requires lines != []
    ensures SplitLines(Written(lines)) == lines <==> AllClean(lines)
  {
    SplitIsClean(Written(lines));
    if AllClean(lines) {
      CleanLinesComeBack(lines);
    }
  }

  /** The line falls apart when it is split: it holds a separator before its last character. */
  predicate Breaks(line: string) {
    !Clean(line) && !IsSeparator(line[|line| - 1])
  }

  /** The end of the first of several lines that `line` falls into. */
  lemma {:induction false} EndOfBroken(line: string, rest: string)
    requires !Clean(line)
    ensures LineEnd(line + rest) < |line|
    decreases |line|
  {
    var s := line + rest;
    if !IsSeparator(line[0]) {
      assert s[0] == line[0] && s[1..] == line[1..] + rest;
      assert !Clean(line[1..]) by {
        var i :| 0 <= i < |line| && IsSeparator(line[i]);
        assert line[1..][i - 1] == line[i];
      }
      EndOfBroken(line[1..], rest);
    }
  }

  /** A line is split into at least one line, and into more if it breaks. */
  lemma {:induction false} SplitsIntoMore(line: string, rest: string)
    ensures |SplitLines(line + "\n" + rest)| >= 1 + |SplitLines(rest)| + if Breaks(line) then 1 else 0
    decreases |line|
  {
    if Clean(line) {
      SplitFirstLine(line, rest);
    } else {
      var s := line + "\n" + rest;
      assert s == line + ("\n" + rest);
      EndOfBroken(line, "\n" + rest);
      var n := LineEnd(s);
      var skip := if s[n] == '\r' && n + 1 < |s| && s[n + 1] == '\n' then 2 else 1;
      if n + skip <= |line| {
        assert s[n + skip..] == line[n + skip..] + "\n" + rest;
        SplitsIntoMore(line[n + skip..], rest);
      } else {
        assert s[n + skip..] == rest && n == |line| - 1;
      }
    }
  }

  lemma {:induction false} WrittenSplitsIntoMore(lines: seq<string>)
    requires lines != []
    ensures |SplitLines(Written(lines))| >= |lines| + if exists i :: 0 <= i < |lines| && Breaks(lines[i]) then 1 else 0
    decreases |lines|
  {
    WrittenFirst(lines);
    if |lines| == 1 {
      SplitsIntoMore(lines[0], "");
    } else {
      SplitsIntoMore(lines[0], Written(lines[1..]));
      WrittenSplitsIntoMore(lines[1..]);
      if i :| 0 < i < |lines| && Breaks(lines[i]) {
        assert Breaks(lines[1..][i - 1]);
      }
    }
  }

  // ------------------------------------------------------------ two boots

  /** The text of the file after one boot. */
  ghost function Boot(text: string, desired: seq<Setting>): string {
    if Settled(SplitLines(text), desired) then text else Written(Reconcile(SplitLines(text), desired))
  }

  /** Keys and values that a boot can write and read back: no separator in a key, no white space around a value. */
  ghost predicate Readable(desired: seq<Setting>) {
    desired != [] && WellFormed(desired) && forall i :: 0 <= i < |desired| ==>
      Clean(desired[i].key) && Trimmed(desired[i].want)
  }

  lemma CleanLine(d: Setting)
    requires Clean(d.key)
    ensures Clean(Line(d)) <==> Clean(d.want)
  {
    if !Clean(d.want) {
      var i :| 0 <= i < |d.want| && IsSeparator(d.want[i]);
      assert Line(d)[|d.key| + 1 + i] == d.want[i];
    }
  }

  lemma ReconciledIsClean(lines: seq<string>, desired: seq<Setting>)
    requires Readable(desired) && AllClean(lines) && forall i :: 0 <= i < |desired| ==> Clean(desired[i].want)
    ensures AllClean(Reconcile(lines, desired))
  {
    var out := Reconcile(lines, desired);
    forall n | 0 <= n < |out| ensures Clean(out[n]) {
      forall i | 0 <= i < |desired| ensures Clean(Line(desired[i])) {
        CleanLine(desired[i]);
      }
      if n >= |lines| {
        assert out[n] == Missing(lines, desired)[n - |lines|];
        MissingIff(lines, desired, out[n]);
      } else if i :| 0 <= i < |desired| && Sets(lines[n], desired[i].key) {
        ManagedLineFixed(lines[n], desired, i);
      } else {
        UnmanagedLineKept(lines[n], desired);
      }
    }
  }

  lemma ReconciledIsNotEmpty(lines: seq<string>, desired: seq<Setting>)
    requires WellFormed(desired) && desired != []
    ensures Reconcile(lines, desired) != []
  {
    ReconcileMeetsDesired(lines, desired, 0);
  }

  lemma {:induction false} StripKeepsClean(s: string)
    requires Clean(s)
    ensures Clean(StripLeft(s)) && Clean(StripRight(s))
    decreases |s|
  {
    if s != [] {
      StripKeepsClean(s[1..]);
      StripKeepsClean(s[..|s| - 1]);
    }
  }

  /** A line read from the file never has a value with a separator in it. */
  lemma CleanLineIsWrong(line: string, d: Setting)
    requires Clean(line) && !Clean(d.want) && Sets(line, d.key)
    ensures Wrong(line, d)
  {
    StripKeepsClean(ValueOf(line, d.key));
    StripKeepsClean(StripLeft(ValueOf(line, d.key)));
  }

  lemma NeverSettled(lines: seq<string>, desired: seq<Setting>, i: nat)
    requires AllClean(lines) && i < |desired| && !Clean(desired[i].want)
    ensures !Settled(lines, desired)
  {
    if SetBy(lines, desired[i].key) {
      var n :| 0 <= n < |lines| && Sets(lines[n], desired[i].key);
      CleanLineIsWrong(lines[n], desired[i]);
    }
  }

  lemma DirtyLineBreaks(d: Setting)
    requires Clean(d.key) && Trimmed(d.want) && !Clean(d.want)
    ensures Breaks(Line(d))
  {
    CleanLine(d);
    assert Line(d)[|Line(d)| - 1] == d.want[|d.want| - 1];
  }

  /** The line of a value with a separator in it is written. */
  lemma WritesTheLine(lines: seq<string>, desired: seq<Setting>, i: nat)
    requires WellFormed(desired) && AllClean(lines) && i < |desired| && !Clean(desired[i].want)
    ensures exists n :: 0 <= n < |Reconcile(lines, desired)| && Reconcile(lines, desired)[n] == Line(desired[i])
  {
    var d, out := desired[i], Reconcile(lines, desired);
    if SetBy(lines, d.key) {
      var n :| 0 <= n < |lines| && Sets(lines[n], d.key);
      CleanLineIsWrong(lines[n], d);
      ManagedLineFixed(lines[n], desired, i);
      assert out[n] == Line(d);
    } else {
      MissingIff(lines, desired, Line(d));
      var n :| 0 <= n < |Missing(lines, desired)| && Missing(lines, desired)[n] == Line(d);
      assert out[|lines| + n] == Line(d);
    }
  }

  lemma BrokenBootGrows(text: string, desired: seq<Setting>, i: nat)
    requires Readable(desired) && i < |desired| && !Clean(desired[i].want)
    ensures |SplitLines(Boot(text, desired))| > |SplitLines(text)|
  {
    var lines := SplitLines(text);
    SplitIsClean(text);
    NeverSettled(lines, desired, i);
    ReconciledIsNotEmpty(lines, desired);
    WritesTheLine(lines, desired, i);
    DirtyLineBreaks(desired[i]);
    WrittenSplitsIntoMore(Reconcile(lines, desired));
  }

  lemma CleanBootSettles(text: string, desired: seq<Setting>)
    requires Readable(desired) && forall i :: 0 <= i < |desired| ==> Clean(desired[i].want)
    ensures Boot(Boot(text, desired), desired) == Boot(text, desired)
  {
    var lines := SplitLines(text);
    if !Settled(lines, desired) {
      SplitIsClean(text);
      ReconciledIsClean(lines, desired);
      ReconciledIsNotEmpty(lines, desired);
      CleanLinesComeBack(Reconcile(lines, desired));
      SecondRunSettledIff(lines, desired);
    }
  }

  /**
   The second boot leaves the file alone if and only if no desired value holds a line separator; with one,
   the file grows.
   */
  lemma SecondBootIff(text: string, desired: seq<Setting>)
    requires Readable(desired)
    ensures Boot(Boot(text, desired), desired) == Boot(text, desired) <==>
      forall i :: 0 <= i < |desired| ==> Clean(desired[i].want)
  {
    if i :| 0 <= i < |desired| && !Clean(desired[i].want) {
      BrokenBootGrows(Boot(text, desired), desired, i);
    } else {
      CleanBootSettles(text, desired);
    }
  }

  lemma OwnValuesClean(scheme: string, externalHost: string, apiPort: string)
    requires IsPort(apiPort) && (scheme == "http" || scheme == "https")
    ensures Clean(scheme + "://" + externalHost + ":" + apiPort) <==> Clean(externalHost)
  {
    var url := scheme + "://" + externalHost + ":" + apiPort;
    var at := |scheme| + 3;
    assert url[at..at + |externalHost|] == externalHost;
    forall i | 0 <= i < |externalHost| ensures url[at + i] == externalHost[i] {
    }
    if Clean(externalHost) {
      forall i | 0 <= i < |url| ensures !IsSeparator(url[i]) {
        assert url[i] == if i < |scheme| then scheme[i] else if i < at then "://"[i - |scheme|]
                         else if i < at + |externalHost| then externalHost[i - at]
                         else if i == at + |externalHost| then ':' else apiPort[i - at - |externalHost| - 1];
      }
    }
  }

  lemma OwnKeysClean(sslEnabled: bool, externalHost: string, apiPort: string)
    ensures var desired := DesiredSettings(sslEnabled, externalHost, apiPort);
            forall i :: 0 <= i < |desired| ==> Clean(desired[i].key)
  {
    assert Clean("GILJO_PUBLIC_URL") && Clean("VITE_API_URL") && Clean("VITE_WS_URL");
  }

  lemma OwnWantsCleanIff(sslEnabled: bool, externalHost: string, apiPort: string)
    requires IsPort(apiPort)
    ensures var desired := DesiredSettings(sslEnabled, externalHost, apiPort);
            (forall i :: 0 <= i < |desired| ==> Clean(desired[i].want)) <==> Clean(externalHost)
  {
    var desired := DesiredSettings(sslEnabled, externalHost, apiPort);
    OwnValuesClean(if sslEnabled then "https" else "http", externalHost, apiPort);
    assert Clean(desired[0].want) <==> Clean(externalHost);
    assert |desired| == 3 && desired[1].want == desired[2].want == "";
  }

  /**
   For the program's own settings, any file and any port: the second boot changes nothing if and only if the
   host holds no line separator.
   */
  lemma OwnSecondBootIff(text: string, sslEnabled: bool, externalHost: string, apiPort: string)
    requires IsPort(apiPort)
    ensures var desired := DesiredSettings(sslEnabled, externalHost, apiPort);
            Boot(Boot(text, desired), desired) == Boot(text, desired) <==> Clean(externalHost)
  {
    var desired := DesiredSettings(sslEnabled, externalHost, apiPort);
    OwnSettingsWell(sslEnabled, externalHost, apiPort);
    OwnKeysClean(sslEnabled, externalHost, apiPort);
    assert Readable(desired);
    SecondBootIff(text, desired);
    OwnWantsCleanIff(sslEnabled, externalHost, apiPort);
  }

  /** From the text read to the text in the file; written only when something changed. */
  method PatchEnvFile(text: string, desired: seq<Setting>, environ: map<string, string>)
    returns (newText: string, written: bool, newEnviron: map<string, string>)
    requires WellFormed(desired)
    ensures newText == Boot(text, desired)
    ensures written <==> !Settled(SplitLines(text), desired)
    ensures OthersSame(environ, newEnviron, desired)
  {
    var lines, changed, env := PatchEnvFromConfig(SplitLines(text), desired, environ);
    newText := if changed then Written(lines) else text;
    written, newEnviron := changed, env;
  }
}
