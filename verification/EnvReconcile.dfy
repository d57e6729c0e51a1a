/** Reconciling the network-derived keys of the `.env` file with config.yaml, line by line and in place. */
module EnvReconcile {
  import opened Text

  datatype Setting = Setting(key: string, want: string)

  /** Keys are distinct and hold no '='. */
  ghost predicate WellFormed(desired: seq<Setting>) {
    && (forall i :: 0 <= i < |desired| ==> '=' !in desired[i].key)
    && (forall i, j :: 0 <= i < j < |desired| ==> desired[i].key != desired[j].key)
  }

  predicate Sets(line: string, key: string) {
    key + "=" <= line
  }

  /** A line sets a key when it is the key, '=' and some value. */
  lemma SetsIff(line: string, key: string)
    ensures Sets(line, key) <==> exists value: string :: line == key + "=" + value
    ensures forall value: string :: line == key + "=" + value ==> ValueOf(line, key) == value
  {
    if Sets(line, key) {
      assert line == (key + "=") + line[|key| + 1..];
      assert line == key + "=" + line[|key| + 1..];
    }
    forall value: string | line == key + "=" + value ensures Sets(line, key) && ValueOf(line, key) == value {
      assert line == (key + "=") + value;
    }
  }

  function ValueOf(line: string, key: string): string
    requires Sets(line, key)
  {
    line[|key| + 1..]
  }

  function Line(d: Setting): string {
    d.key + "=" + d.want
  }

  /** The line needs rewriting for this setting: it sets the key, to something else up to surrounding white space. */
  predicate Wrong(line: string, d: Setting) {
    Sets(line, d.key) && Strip(ValueOf(line, d.key)) != d.want
  }

  /** The line after the pass over all settings; a later setting that matches overrides an earlier one. */
  function FixLine(line: string, desired: seq<Setting>): string
    decreases |desired|
  {
    if desired == [] then line
    else
      var last := desired[|desired| - 1];
      if Wrong(line, last) then Line(last) else FixLine(line, desired[..|desired| - 1])
  }

  predicate SetBy(lines: seq<string>, key: string) {
    exists i :: 0 <= i < |lines| && Sets(lines[i], key)
  }

  function Missing(lines: seq<string>, desired: seq<Setting>): seq<string>
    decreases |desired|
  {
    if desired == [] then []
    else
      var last := desired[|desired| - 1];
      Missing(lines, desired[..|desired| - 1]) + if SetBy(lines, last.key) then [] else [Line(last)]
  }

  function FixLines(lines: seq<string>, desired: seq<Setting>): (r: seq<string>)
    ensures |r| == |lines| && forall i :: 0 <= i < |lines| ==> r[i] == FixLine(lines[i], desired)
  {
    if lines == [] then [] else [FixLine(lines[0], desired)] + FixLines(lines[1..], desired)
  }

  function Reconcile(lines: seq<string>, desired: seq<Setting>): seq<string> {
    FixLines(lines, desired) + Missing(lines, desired)
  }

  // ----------------------------------------------------- one line, one key

  lemma KeyEndsAtFirstEquals(line: string, key: string)
    requires '=' !in key && Sets(line, key)
    ensures |key| < |line| && line[..|key|] == key && line[|key|] == '='
    ensures forall n :: 0 <= n < |key| ==> line[n] != '='
  {
  }

  /** Two keys without '=' cannot both be set by one line. */
  lemma OneKeyPerLine(line: string, k: string, l: string)
    requires '=' !in k && '=' !in l && Sets(line, k) && Sets(line, l)
    ensures k == l
  {
    KeyEndsAtFirstEquals(line, k);
    KeyEndsAtFirstEquals(line, l);
  }

  lemma LineSets(d: Setting)
    ensures Sets(Line(d), d.key) && ValueOf(Line(d), d.key) == d.want
  {
  }

  /** A line with a managed key ends with the desired value, itself if it had it and rewritten if not. */
  lemma {:induction false} ManagedLineFixed(line: string, desired: seq<Setting>, i: nat)
    requires WellFormed(desired) && i < |desired| && Sets(line, desired[i].key)
    ensures FixLine(line, desired) == if Wrong(line, desired[i]) then Line(desired[i]) else line
    decreases |desired|
  {
    var n := |desired| - 1;
    if Sets(line, desired[n].key) {
      OneKeyPerLine(line, desired[i].key, desired[n].key);
      assert i == n;
      if !Wrong(line, desired[n]) {
        UnmanagedLineKept(line, desired[..n]) by {
          forall j | 0 <= j < n ensures !Sets(line, desired[..n][j].key) {
            if Sets(line, desired[j].key) {
              OneKeyPerLine(line, desired[j].key, desired[n].key);
            }
          }
        }
      }
    } else {
      ManagedLineFixed(line, desired[..n], i);
    }
  }

  lemma {:induction false} UnmanagedLineKept(line: string, desired: seq<Setting>)
    requires forall j :: 0 <= j < |desired| ==> !Sets(line, desired[j].key)
    ensures FixLine(line, desired) == line
    decreases |desired|
  {
    if desired != [] {
      UnmanagedLineKept(line, desired[..|desired| - 1]);
    }
  }

  // ------------------------------------------------------ the whole file

  /** Which of the missing settings' lines `line` is, if any. */
  lemma {:induction false} MissingIff(lines: seq<string>, desired: seq<Setting>, line: string)
    ensures line in Missing(lines, desired) <==>
            exists i :: 0 <= i < |desired| && !SetBy(lines, desired[i].key) && line == Line(desired[i])
    decreases |desired|
  {
    if desired != [] {
      var n := |desired| - 1;
      MissingIff(lines, desired[..n], line);
      assert forall i :: 0 <= i < n ==> desired[..n][i] == desired[i];
      if line in Missing(lines, desired) && line !in Missing(lines, desired[..n]) {
        assert !SetBy(lines, desired[n].key) && line == Line(desired[n]);
      }
    }
  }

  /** How many lines set a key. */
  function Count(lines: seq<string>, key: string): nat {
    if lines == [] then 0 else (if Sets(lines[0], key) then 1 else 0) + Count(lines[1..], key)
  }

  lemma {:induction false} CountAppend(a: seq<string>, b: seq<string>, key: string)
    ensures Count(a + b, key) == Count(a, key) + Count(b, key)
    decreases |a|
  {
    if a == [] {
      assert a + b == b;
    } else {
      assert (a + b)[0] == a[0] && (a + b)[1..] == a[1..] + b;
      CountAppend(a[1..], b, key);
    }
  }

  lemma {:induction false} CountFixed(lines: seq<string>, desired: seq<Setting>, i: nat)
    requires WellFormed(desired) && i < |desired|
    ensures Count(FixLines(lines, desired), desired[i].key) == Count(lines, desired[i].key)
    decreases |lines|
  {
    if lines != [] {
      FixedLineSetsSame(lines[0], desired, i);
      CountFixed(lines[1..], desired, i);
      assert FixLines(lines, desired)[1..] == FixLines(lines[1..], desired);
    }
  }

  /** Fixing a line never changes which key it sets. */
  lemma FixedLineSetsSame(line: string, desired: seq<Setting>, i: nat)
    requires WellFormed(desired) && i < |desired|
    ensures Sets(FixLine(line, desired), desired[i].key) <==> Sets(line, desired[i].key)
  {
    if exists j :: 0 <= j < |desired| && Sets(line, desired[j].key) {
      var j :| 0 <= j < |desired| && Sets(line, desired[j].key);
      ManagedLineFixed(line, desired, j);
      LineSets(desired[j]);
      if Sets(FixLine(line, desired), desired[i].key) {
        OneKeyPerLine(FixLine(line, desired), desired[i].key, desired[j].key);
      }
      if Sets(line, desired[i].key) {
        OneKeyPerLine(line, desired[i].key, desired[j].key);
      }
    } else {
      UnmanagedLineKept(line, desired);
    }
  }

  lemma CountOne(d: Setting, key: string)
    requires '=' !in d.key && '=' !in key
    ensures Count([Line(d)], key) == if key == d.key then 1 else 0
  {
    LineSets(d);
    if Sets(Line(d), key) {
      OneKeyPerLine(Line(d), key, d.key);
    }
    assert [Line(d)][1..] == [];
  }

  lemma LastIsNew(desired: seq<Setting>, d: Setting)
    requires WellFormed(desired) && desired != []
    requires forall j :: 0 <= j < |desired| && desired[j].key == d.key ==> desired[j] == d
    ensures var n := |desired| - 1;
      && WellFormed(desired[..n])
      && (forall j :: 0 <= j < n && desired[..n][j].key == d.key ==> desired[..n][j] == d)
      && (d in desired <==> d in desired[..n] || d.key == desired[n].key)
      && (d in desired[..n] ==> d.key != desired[n].key)
  {
  }

  lemma {:induction false} CountMissing(lines: seq<string>, desired: seq<Setting>, d: Setting)
    requires WellFormed(desired) && '=' !in d.key
    requires forall j :: 0 <= j < |desired| && desired[j].key == d.key ==> desired[j] == d
    ensures Count(Missing(lines, desired), d.key) == if d in desired && !SetBy(lines, d.key) then 1 else 0
    decreases |desired|
  {
    if desired != [] {
      var n := |desired| - 1;
      var last := desired[n];
      LastIsNew(desired, d);
      CountMissing(lines, desired[..n], d);
      CountAppend(Missing(lines, desired[..n]), if SetBy(lines, last.key) then [] else [Line(last)], d.key);
      CountOne(last, d.key);
    }
  }

  lemma {:induction false} CountZero(lines: seq<string>, key: string)
    ensures Count(lines, key) == 0 <==> !SetBy(lines, key)
    decreases |lines|
  {
    if lines != [] {
      CountZero(lines[1..], key);
      if SetBy(lines[1..], key) {
        var i :| 0 <= i < |lines[1..]| && Sets(lines[1..][i], key);
        assert Sets(lines[i + 1], key);
      }
      if Sets(lines[0], key) {
        assert SetBy(lines, key);
      } else if SetBy(lines, key) {
        var i :| 0 <= i < |lines| && Sets(lines[i], key);
        assert Sets(lines[1..][i - 1], key);
      }
    }
  }

  /**
   For any list of lines: unmanaged lines keep their content and place; each line of a managed key,
   duplicates included, ends with the desired value; and a key with no line gets exactly one.
   */
  lemma ReconcileMeetsDesired(lines: seq<string>, desired: seq<Setting>, i: nat)
    requires WellFormed(desired) && i < |desired|
    ensures var d, out := desired[i], Reconcile(lines, desired);
      && |out| >= |lines|
      && (forall n :: 0 <= n < |lines| && Sets(lines[n], d.key) ==>
        out[n] == if Wrong(lines[n], d) then Line(d) else lines[n])
      && (forall n :: 0 <= n < |lines| && (forall j :: 0 <= j < |desired| ==> !Sets(lines[n], desired[j].key)) ==>
        out[n] == lines[n])
      && Count(out, d.key) == (if SetBy(lines, d.key) then Count(lines, d.key) else 1)
      && (SetBy(lines, d.key) <==> Count(lines, d.key) > 0)
  {
    var d, out := desired[i], Reconcile(lines, desired);
    forall n | 0 <= n < |lines| && Sets(lines[n], d.key) ensures out[n] == if Wrong(lines[n], d) then Line(d)
      else lines[n] {
      ManagedLineFixed(lines[n], desired, i);
    }
    forall n | 0 <= n < |lines|
      && (forall j :: 0 <= j < |desired| ==> !Sets(lines[n], desired[j].key)) ensures out[n] == lines[n] {
      UnmanagedLineKept(lines[n], desired);
    }
    CountAppend(FixLines(lines, desired), Missing(lines, desired), d.key);
    CountFixed(lines, desired, i);
    CountMissing(lines, desired, d);
    CountZero(lines, d.key);
  }

  /** A pass changes nothing: no line is wrong and no key is missing. */
  ghost predicate Settled(lines: seq<string>, desired: seq<Setting>) {
    forall i :: 0 <= i < |desired| ==> SetBy(lines, desired[i].key) && NoneWrong(lines, desired[i])
  }

  predicate NoneWrong(lines: seq<string>, d: Setting) {
    forall n :: 0 <= n < |lines| ==> !Wrong(lines[n], d)
  }

  /** Every line of the result that sets a key has its trimmed value. */
  lemma ResultIsRight(lines: seq<string>, desired: seq<Setting>, i: nat)
    requires WellFormed(desired) && i < |desired| && Trimmed(desired[i].want)
    ensures NoneWrong(Reconcile(lines, desired), desired[i])
  {
    var d, out := desired[i], Reconcile(lines, desired);
    forall n | 0 <= n < |out| ensures !Wrong(out[n], d) {
      LineSets(d);
      StripIsTrimmed(d.want);
      if n < |lines| {
        FixedLineSetsSame(lines[n], desired, i);
        if Sets(lines[n], d.key) {
          ManagedLineFixed(lines[n], desired, i);
        }
      } else {
        assert out[n] == Missing(lines, desired)[n - |lines|];
        MissingIff(lines, desired, out[n]);
        var j :| 0 <= j < |desired| && !SetBy(lines, desired[j].key) && out[n] == Line(desired[j]);
        LineSets(desired[j]);
        if Sets(out[n], d.key) {
          OneKeyPerLine(out[n], d.key, desired[j].key);
        }
      }
    }
  }

  /** A second run changes nothing exactly when every desired value is free of surrounding white space. */
  lemma SecondRunSettledIff(lines: seq<string>, desired: seq<Setting>)
    requires WellFormed(desired)
    ensures Settled(Reconcile(lines, desired), desired) <==> forall i :: 0 <= i < |desired| ==> Trimmed(desired[i].want)
  {
    var out := Reconcile(lines, desired);
    forall i | 0 <= i < |desired|
      ensures SetBy(out, desired[i].key) && (NoneWrong(out, desired[i]) <==> Trimmed(desired[i].want))
    {
      ReconcileMeetsDesired(lines, desired, i);
      CountZero(out, desired[i].key);
      if Trimmed(desired[i].want) {
        ResultIsRight(lines, desired, i);
      } else {
        var n :| 0 <= n < |out| && Sets(out[n], desired[i].key);
        StripIsTrimmed(ValueOf(out[n], desired[i].key));
        assert Wrong(out[n], desired[i]);
      }
    }
  }

  /** A settled file is left alone. */
  lemma SettledIsKept(lines: seq<string>, desired: seq<Setting>)
    requires WellFormed(desired) && Settled(lines, desired)
    ensures Reconcile(lines, desired) == lines
  {
    forall n | 0 <= n < |lines| ensures FixLine(lines[n], desired) == lines[n] {
      if exists j :: 0 <= j < |desired| && Sets(lines[n], desired[j].key) {
        var j :| 0 <= j < |desired| && Sets(lines[n], desired[j].key);
        assert NoneWrong(lines, desired[j]);
        ManagedLineFixed(lines[n], desired, j);
      } else {
        UnmanagedLineKept(lines[n], desired);
      }
    }
    if Missing(lines, desired) != [] {
      MissingIff(lines, desired, Missing(lines, desired)[0]);
    }
    assert Reconcile(lines, desired) == lines;
  }

  /** What a LAN or WAN install wants, from the served scheme, host and port. */
  function DesiredSettings(sslEnabled: bool, externalHost: string, apiPort: string): seq<Setting> {
    [Setting("GILJO_PUBLIC_URL", (if sslEnabled then "https" else "http") + "://" + externalHost + ":" + apiPort),
     Setting("VITE_API_URL", ""),
     Setting("VITE_WS_URL", "")]
  }

  predicate IsPort(port: string) {
    port != "" && forall i :: 0 <= i < |port| ==> '0' <= port[i] <= '9'
  }

  function Decimal(n: nat): string {
    if n < 10 then ["0123456789"[n]] else Decimal(n / 10) + ["0123456789"[n % 10]]
  }

  function NumberOf(port: string): nat
    requires forall i :: 0 <= i < |port| ==> '0' <= port[i] <= '9'
  {
    if port == "" then 0 else 10 * NumberOf(port[..|port| - 1]) + (port[|port| - 1] as int - '0' as int)
  }

  /** A port number is written in decimal digits, and its digits say which. */
  lemma {:induction false} NumbersArePorts(n: nat)
    ensures IsPort(Decimal(n)) && NumberOf(Decimal(n)) == n
    decreases n
  {
    assert forall d: nat :: d < 10 ==> "0123456789"[d] == ('0' as int + d) as char;
    if n >= 10 {
      NumbersArePorts(n / 10);
      assert Decimal(n)[..|Decimal(n)| - 1] == Decimal(n / 10);
    } else {
      assert Decimal(n)[..0] == "";
    }
  }

  lemma OwnKeysWell()
    ensures '=' !in "GILJO_PUBLIC_URL" && '=' !in "VITE_API_URL" && '=' !in "VITE_WS_URL"
    ensures |"GILJO_PUBLIC_URL"| == 16 && |"VITE_API_URL"| == 12 && |"VITE_WS_URL"| == 11
  {
  }

  lemma OwnUrlTrimmed(scheme: string, externalHost: string, apiPort: string)
    requires IsPort(apiPort) && scheme != "" && scheme[0] == 'h'
    ensures Trimmed(scheme + "://" + externalHost + ":" + apiPort)
  {
  }

  lemma OwnSettingsWell(sslEnabled: bool, externalHost: string, apiPort: string)
    requires IsPort(apiPort)
    ensures var desired := DesiredSettings(sslEnabled, externalHost, apiPort);
            WellFormed(desired) && forall i :: 0 <= i < |desired| ==> Trimmed(desired[i].want)
  {
    OwnKeysWell();
    OwnUrlTrimmed(if sslEnabled then "https" else "http", externalHost, apiPort);
    var desired := DesiredSettings(sslEnabled, externalHost, apiPort);
    assert |desired[0].key| == 16 && |desired[1].key| == 12 && |desired[2].key| == 11;
  }

  /**
   What the program's own reconciliation leaves, spelled out: on every line of the public URL the served
   scheme, host and port, on every line of the two front-end keys nothing, and each of the keys has a line.
   */
  lemma OwnLinesMeetDesired(lines: seq<string>, sslEnabled: bool, externalHost: string, apiPort: string)
    requires IsPort(apiPort)
    ensures var out := Reconcile(lines, DesiredSettings(sslEnabled, externalHost, apiPort));
            var scheme := if sslEnabled then "https" else "http";
            && SetBy(out, "GILJO_PUBLIC_URL") && SetBy(out, "VITE_API_URL") && SetBy(out, "VITE_WS_URL")
            && forall n, value :: 0 <= n < |out| ==>
                 && (out[n] == "GILJO_PUBLIC_URL=" + value ==>
                       Strip(value) == scheme + "://" + externalHost + ":" + apiPort)
                 && (out[n] == "VITE_API_URL=" + value || out[n] == "VITE_WS_URL=" + value ==> Strip(value) == "")
  {
    var desired := DesiredSettings(sslEnabled, externalHost, apiPort);
    var out := Reconcile(lines, desired);
    OwnSettingsWell(sslEnabled, externalHost, apiPort);
    SecondRunSettledIff(lines, desired);
    forall i | 0 <= i < 3 ensures SetBy(out, desired[i].key) && NoneWrong(out, desired[i]) {
    }
    assert desired[0].key == "GILJO_PUBLIC_URL" && desired[1].key == "VITE_API_URL" && desired[2].key == "VITE_WS_URL";
    forall n, value | 0 <= n < |out|
      ensures out[n] == "GILJO_PUBLIC_URL=" + value ==> Strip(value) == desired[0].want
      ensures out[n] == "VITE_API_URL=" + value ==> Strip(value) == ""
      ensures out[n] == "VITE_WS_URL=" + value ==> Strip(value) == ""
    {
      SettledLineHas(out, desired[0], n, value);
      SettledLineHas(out, desired[1], n, value);
      SettledLineHas(out, desired[2], n, value);
    }
  }

  lemma SettledLineHas(lines: seq<string>, d: Setting, n: nat, value: string)
    requires n < |lines| && NoneWrong(lines, d)
    ensures lines[n] == d.key + "=" + value ==> Strip(value) == d.want
  {
    SetsIff(lines[n], d.key);
  }

  /**
   For the program's own three keys, whatever the host and the lines: a second pass over the resulting lines
   changes nothing.
   */
  lemma SecondBootChangesNothing(lines: seq<string>, sslEnabled: bool, externalHost: string, apiPort: string)
    requires IsPort(apiPort)
    ensures var desired := DesiredSettings(sslEnabled, externalHost, apiPort);
            && Settled(Reconcile(lines, desired), desired)
            && Reconcile(Reconcile(lines, desired), desired) == Reconcile(lines, desired)
  {
    var desired := DesiredSettings(sslEnabled, externalHost, apiPort);
    OwnSettingsWell(sslEnabled, externalHost, apiPort);
    SecondRunSettledIff(lines, desired);
    SettledIsKept(Reconcile(lines, desired), desired);
  }

  // ------------------------------------------------------- the loops

  /**
   The setting is exported into the environment when the file had to be touched for it, and its variable
   left alone otherwise.
   */
  ghost predicate ExportedIf(touched: bool, before: map<string, string>, after: map<string, string>, d: Setting) {
    if touched then d.key in after && after[d.key] == d.want else SameAt(before, after, d.key)
  }

  ghost predicate SameAt(before: map<string, string>, after: map<string, string>, k: string) {
    (k in after <==> k in before) && (k in before ==> after[k] == before[k])
  }

  function Keys(desired: seq<Setting>): set<string> {
    set i | 0 <= i < |desired| :: desired[i].key
  }

  ghost predicate OthersSame(before: map<string, string>, after: map<string, string>, desired: seq<Setting>) {
    forall k :: k !in Keys(desired) ==> SameAt(before, after, k)
  }

  /** Exporting one setting does just that. */
  lemma ExportOne(before: map<string, string>, env: map<string, string>, desired: seq<Setting>, j: nat)
    requires WellFormed(desired) && j < |desired| && OthersSame(before, env, desired)
    ensures var after := env[desired[j].key := desired[j].want];
      && OthersSame(before, after, desired) && ExportedIf(true, before, after, desired[j])
      && (forall i, touched :: 0 <= i < |desired| && i != j && ExportedIf(touched, before, env, desired[i]) ==>
            ExportedIf(touched, before, after, desired[i]))
  {
  }

  predicate SomeWrong(line: string, desired: seq<Setting>) {
    exists i :: 0 <= i < |desired| && Wrong(line, desired[i])
  }

  lemma OneMoreSetting(line: string, desired: seq<Setting>, j: nat)
    requires j < |desired|
    ensures FixLine(line, desired[..j + 1])
            == if Wrong(line, desired[j]) then Line(desired[j]) else FixLine(line, desired[..j])
    ensures SomeWrong(line, desired[..j + 1]) <==> SomeWrong(line, desired[..j]) || Wrong(line, desired[j])
  {
    var more, front := desired[..j + 1], desired[..j];
    assert more[j] == desired[j] && forall i :: 0 <= i < j ==> more[i] == front[i];
    assert more[..j] == front;
  }

  ghost predicate SeenUpTo(seen: set<string>, line: string, desired: seq<Setting>, j: nat) {
    forall i :: 0 <= i < |desired| ==> (desired[i].key in seen <==> i < j && Sets(line, desired[i].key))
  }

  lemma OneMoreSeen(seen: set<string>, line: string, desired: seq<Setting>, j: nat)
    requires WellFormed(desired) && j < |desired| && SeenUpTo(seen, line, desired, j)
    ensures SeenUpTo(if Sets(line, desired[j].key) then seen + {desired[j].key} else seen, line, desired, j + 1)
  {
  }

  ghost predicate ExportedUpTo(before: map<string, string>, after: map<string, string>, line: string,
                               desired: seq<Setting>, j: nat) {
    forall i :: 0 <= i < |desired| ==> ExportedIf(i < j && Wrong(line, desired[i]), before, after, desired[i])
  }

  lemma OneMoreExported(before: map<string, string>, env: map<string, string>, line: string, desired: seq<Setting>,
                        j: nat)
    requires WellFormed(desired) && j < |desired| && OthersSame(before, env, desired)
      && ExportedUpTo(before, env, line, desired, j)
    ensures var after := if Wrong(line, desired[j]) then env[desired[j].key := desired[j].want] else env;
            OthersSame(before, after, desired) && ExportedUpTo(before, after, line, desired, j + 1)
  {
  }

  /** The pass over all settings for one line. */
  method FixOneLine(line: string, desired: seq<Setting>, environ: map<string, string>)
    returns (fixed: string, seen: set<string>, changed: bool, newEnviron: map<string, string>)
    requires WellFormed(desired)
    ensures fixed == FixLine(line, desired)
    ensures forall i :: 0 <= i < |desired| ==> (desired[i].key in seen <==> Sets(line, desired[i].key))
    ensures changed <==> SomeWrong(line, desired)
    ensures forall i :: 0 <= i < |desired| ==> ExportedIf(Wrong(line, desired[i]), environ, newEnviron, desired[i])
    ensures OthersSame(environ, newEnviron, desired)
  {
    fixed, seen, changed, newEnviron := line, {}, false, environ;
    for j := 0 to |desired|
      invariant fixed == FixLine(line, desired[..j])
      invariant SeenUpTo(seen, line, desired, j)
      invariant changed <==> SomeWrong(line, desired[..j])
      invariant ExportedUpTo(environ, newEnviron, line, desired, j)
      invariant OthersSame(environ, newEnviron, desired)
    {
      var d := desired[j];
      OneMoreSetting(line, desired, j);
      OneMoreSeen(seen, line, desired, j);
      OneMoreExported(environ, newEnviron, line, desired, j);
      if Sets(line, d.key) {
        seen := seen + {d.key};
        if Strip(ValueOf(line, d.key)) != d.want {
          fixed := Line(d);
          newEnviron := newEnviron[d.key := d.want];
          changed := true;
        }
      }
    }
    assert desired[..|desired|] == desired;
  }

  lemma OneMoreLine(lines: seq<string>, d: Setting, idx: nat)
    requires idx < |lines|
    ensures SetBy(lines[..idx + 1], d.key) <==> SetBy(lines[..idx], d.key) || Sets(lines[idx], d.key)
    ensures NoneWrong(lines[..idx + 1], d) <==> NoneWrong(lines[..idx], d) && !Wrong(lines[idx], d)
  {
  }

  ghost predicate AllRight(lines: seq<string>, desired: seq<Setting>) {
    forall i :: 0 <= i < |desired| ==> NoneWrong(lines, desired[i])
  }

  lemma AllOneMoreLine(lines: seq<string>, desired: seq<Setting>, idx: nat)
    requires idx < |lines|
    ensures forall i :: 0 <= i < |desired| ==>
      && (SetBy(lines[..idx + 1], desired[i].key) <==>
        SetBy(lines[..idx], desired[i].key) || Sets(lines[idx], desired[i].key))
      && (NoneWrong(lines[..idx + 1], desired[i]) <==>
        NoneWrong(lines[..idx], desired[i]) && !Wrong(lines[idx], desired[i]))
    ensures AllRight(lines[..idx + 1], desired) <==> AllRight(lines[..idx], desired) && !SomeWrong(lines[idx], desired)
  {
    forall i | 0 <= i < |desired|
      ensures SetBy(lines[..idx + 1], desired[i].key) <==>
        SetBy(lines[..idx], desired[i].key) || Sets(lines[idx], desired[i].key)
      ensures NoneWrong(lines[..idx + 1], desired[i]) <==>
        NoneWrong(lines[..idx], desired[i]) && !Wrong(lines[idx], desired[i])
    {
      OneMoreLine(lines, desired[i], idx);
    }
  }

  ghost predicate SeenIn(seen: set<string>, lines: seq<string>, desired: seq<Setting>) {
    forall i :: 0 <= i < |desired| ==> (desired[i].key in seen <==> SetBy(lines, desired[i].key))
  }

  lemma LineSeen(seen: set<string>, matched: set<string>, lines: seq<string>, desired: seq<Setting>, idx: nat)
    requires idx < |lines| && SeenIn(seen, lines[..idx], desired)
    requires forall i :: 0 <= i < |desired| ==> (desired[i].key in matched <==> Sets(lines[idx], desired[i].key))
    ensures SeenIn(seen + matched, lines[..idx + 1], desired)
  {
    AllOneMoreLine(lines, desired, idx);
  }

  ghost predicate ExportedFor(before: map<string, string>, after: map<string, string>, lines: seq<string>,
                              desired: seq<Setting>) {
    forall i :: 0 <= i < |desired| ==> ExportedIf(!NoneWrong(lines, desired[i]), before, after, desired[i])
  }

  lemma LineExported(before: map<string, string>, env: map<string, string>, after: map<string, string>,
                     lines: seq<string>, desired: seq<Setting>, idx: nat)
    requires idx < |lines| && ExportedFor(before, env, lines[..idx], desired)
    requires forall i :: 0 <= i < |desired| ==> ExportedIf(Wrong(lines[idx], desired[i]), env, after, desired[i])
    ensures ExportedFor(before, after, lines[..idx + 1], desired)
  {
    forall i | 0 <= i < |desired| ensures ExportedIf(!NoneWrong(lines[..idx + 1], desired[i]), before, after,
      desired[i]) {
      OneMoreLine(lines, desired[i], idx);
      assert ExportedIf(!NoneWrong(lines[..idx], desired[i]), before, env, desired[i]);
    }
  }

  ghost predicate FixedUpTo(lines: seq<string>, envLines: seq<string>, desired: seq<Setting>, idx: nat) {
    && |lines| == |envLines|
    && forall n :: 0 <= n < |lines| ==> lines[n] == if n < idx then FixLine(envLines[n], desired) else envLines[n]
  }

  lemma LineFixed(lines: seq<string>, envLines: seq<string>, desired: seq<Setting>, idx: nat)
    requires idx < |lines| && FixedUpTo(lines, envLines, desired, idx)
    ensures lines[idx] == envLines[idx]
    ensures FixedUpTo(lines[idx := FixLine(lines[idx], desired)], envLines, desired, idx + 1)
  {
  }

  lemma AllFixed(lines: seq<string>, envLines: seq<string>, desired: seq<Setting>)
    requires FixedUpTo(lines, envLines, desired, |envLines|)
    ensures lines == FixLines(envLines, desired)
  {
  }

  /** The loop over the lines; `seen` collects the managed keys met. */
  method FixAllLines(envLines: seq<string>, desired: seq<Setting>, environ: map<string, string>)
    returns (lines: seq<string>, seen: set<string>, changed: bool, newEnviron: map<string, string>)
    requires WellFormed(desired)
    ensures lines == FixLines(envLines, desired)
    ensures forall i :: 0 <= i < |desired| ==> (desired[i].key in seen <==> SetBy(envLines, desired[i].key))
    ensures changed <==> !AllRight(envLines, desired)
    ensures forall i :: 0 <= i < |desired| ==>
      ExportedIf(!NoneWrong(envLines, desired[i]), environ, newEnviron, desired[i])
    ensures OthersSame(environ, newEnviron, desired)
  {
    lines, seen, changed, newEnviron := envLines, {}, false, environ;
    for idx := 0 to |envLines|
      invariant FixedUpTo(lines, envLines, desired, idx)
      invariant SeenIn(seen, envLines[..idx], desired)
      invariant changed <==> !AllRight(envLines[..idx], desired)
      invariant ExportedFor(environ, newEnviron, envLines[..idx], desired)
      invariant OthersSame(environ, newEnviron, desired)
    {
      LineFixed(lines, envLines, desired, idx);
      var fixed, matched, rewrote, env := FixOneLine(lines[idx], desired, newEnviron);
      AllOneMoreLine(envLines, desired, idx);
      LineSeen(seen, matched, envLines, desired, idx);
      LineExported(environ, newEnviron, env, envLines, desired, idx);
      lines := lines[idx := fixed];
      seen := seen + matched;
      changed := changed || rewrote;
      newEnviron := env;
    }
    AllFixed(lines, envLines, desired);
    assert envLines[..|envLines|] == envLines;
  }

  predicate AnyMissing(lines: seq<string>, desired: seq<Setting>) {
    exists i :: 0 <= i < |desired| && !SetBy(lines, desired[i].key)
  }

  lemma OneMoreMissing(lines: seq<string>, desired: seq<Setting>, j: nat)
    requires j < |desired|
    ensures AnyMissing(lines, desired[..j + 1]) <==> AnyMissing(lines, desired[..j]) || !SetBy(lines, desired[j].key)
    ensures Missing(lines, desired[..j + 1])
            == Missing(lines, desired[..j]) + if SetBy(lines, desired[j].key) then [] else [Line(desired[j])]
  {
    var more, front := desired[..j + 1], desired[..j];
    assert more[j] == desired[j] && forall i :: 0 <= i < j ==> more[i] == front[i];
    assert more[..j] == front;
  }

  /** The loop over the settings no line was seen for. */
  method AppendMissing(envLines: seq<string>, desired: seq<Setting>, seen: set<string>, environ: map<string, string>)
    returns (extra: seq<string>, appended: bool, newEnviron: map<string, string>)
    requires WellFormed(desired)
    requires forall i :: 0 <= i < |desired| ==> (desired[i].key in seen <==> SetBy(envLines, desired[i].key))
    ensures extra == Missing(envLines, desired)
    ensures appended <==> AnyMissing(envLines, desired)
    ensures forall i :: 0 <= i < |desired| ==>
      ExportedIf(!SetBy(envLines, desired[i].key), environ, newEnviron, desired[i])
    ensures OthersSame(environ, newEnviron, desired)
  {
    extra, appended, newEnviron := [], false, environ;
    for j := 0 to |desired|
      invariant extra == Missing(envLines, desired[..j])
      invariant appended <==> AnyMissing(envLines, desired[..j])
      invariant forall i :: 0 <= i < |desired| ==>
        ExportedIf(i < j && !SetBy(envLines, desired[i].key), environ, newEnviron, desired[i])
      invariant OthersSame(environ, newEnviron, desired)
    {
      var d := desired[j];
      OneMoreMissing(envLines, desired, j);
      if d.key !in seen {
        ExportOne(environ, newEnviron, desired, j);
        extra := extra + [Line(d)];
        newEnviron := newEnviron[d.key := d.want];
        appended := true;
      }
    }
    assert desired[..|desired|] == desired;
  }

  /** `_patch_env_from_config`, from the split lines to the lines to write; `environ` is the process environment. */
  method PatchEnvFromConfig(envLines: seq<string>, desired: seq<Setting>, environ: map<string, string>)
    returns (lines: seq<string>, changed: bool, newEnviron: map<string, string>)
    requires WellFormed(desired)
    ensures lines == Reconcile(envLines, desired)
    ensures changed <==> !Settled(envLines, desired)
    ensures forall i :: 0 <= i < |desired| ==>
      ExportedIf(!SetBy(envLines, desired[i].key) || !NoneWrong(envLines, desired[i]), environ, newEnviron, desired[i])
    ensures OthersSame(environ, newEnviron, desired)
  {
    var fixed, seen, rewrote, env := FixAllLines(envLines, desired, environ);
    var extra, appended, env2 := AppendMissing(envLines, desired, seen, env);
    lines, changed, newEnviron := fixed + extra, rewrote || appended, env2;
  }
}
