/**
 * The command line of the screen-cast process
 * (Remotely_ScreenCast/Program.cs): `ProcessArgs` (lines 159-178), reading
 * the required keys in `Main` (lines 43-48), and the argument strings of the
 * two self-relaunches (lines 112 and 125).
 */
module SessionArgs {
  import opened Wrappers
  import opened Text

  /** An element of `args`; the source checks each for null. */
  type Arg = Option<string>

  /** `key.Trim().Replace("-", "").ToLower()`. */
  function NormalizeKey(key: string): (k: string)
  {
    ToLower(RemoveAll(Trim(key), '-'))
  }

  /** A stored key has no `-` and no upper-case ASCII letter. */
  lemma NormalizedKeyShape(key: string)
    ensures '-' !in NormalizeKey(key)
    ensures forall i :: 0 <= i < |NormalizeKey(key)| ==> !('A' <= NormalizeKey(key)[i] <= 'Z')
  {
    var r := RemoveAll(Trim(key), '-');
    assert forall i :: 0 <= i < |r| ==> r[i] != '-';
  }

  /** `args[i + 1]` read past the end of the array. */
  datatype ArgError = MissingValue(index: nat)

  /** How many times the loop body runs: once per even index below `|args|`. */
  function Rounds(args: seq<Arg>): nat {
    (|args| + 1) / 2
  }

  /** The loop body for `i == 2 * p`, on the dictionary `m` built so far. */
  function AddPair(m: map<string, string>, args: seq<Arg>, p: nat): Result<map<string, string>, ArgError>
    requires 2 * p < |args|
  {
    match args[2 * p]
    case None => Success(m)
    case Some(key) =>
      if 2 * p + 1 == |args| then Failure(MissingValue(2 * p + 1))
      else match args[2 * p + 1]
        case None => Success(m)
        case Some(value) => Success(m[NormalizeKey(key) := Trim(value)])
  }

  /** The dictionary after the first `p` rounds of the loop, or what they threw. */
  function Scan(args: seq<Arg>, p: nat): Result<map<string, string>, ArgError>
    requires p <= Rounds(args)
  {
    if p == 0 then Success(map[])
    else match Scan(args, p - 1)
      case Failure(e) => Failure(e)
      case Success(m) => AddPair(m, args, p - 1)
  }

  /** The dictionary `ProcessArgs` returns, or the error it throws. */
  function ArgDict(args: seq<Arg>): Result<map<string, string>, ArgError> {
    Scan(args, Rounds(args))
  }

  /** Lines 159-178: the `for` loop stepping by two over `args`. */
  method ProcessArgs(args: seq<Arg>) returns (r: Result<map<string, string>, ArgError>)
    ensures r == ArgDict(args)
  {
    var argDict: map<string, string> := map[];
    var i := 0;
    ghost var p := 0;
    while i < |args|
      invariant i == 2 * p && p <= Rounds(args)
      invariant Scan(args, p) == Success(argDict)
    {
      var key := args[i];
      if key.Some? {
        var k := NormalizeKey(key.value);
        if i + 1 >= |args| {
          assert p + 1 == Rounds(args);
          return Failure(MissingValue(i + 1));
        }
        var value := args[i + 1];
        if value.Some? {
          argDict := argDict[k := Trim(value.value)];
        }
      }
      i, p := i + 2, p + 1;
    }
    assert p == Rounds(args);
    return Success(argDict);
  }

  /** Only the round that reads the last element as a key can throw. */
  lemma {:induction false} ScanFails(args: seq<Arg>, p: nat)
    requires p <= Rounds(args)
    ensures Scan(args, p).Failure? <==> 2 * p == |args| + 1 && args[|args| - 1].Some?
    ensures Scan(args, p).Failure? ==> Scan(args, p).error == MissingValue(|args|)
  {
    if p > 0 {
      ScanFails(args, p - 1);
    }
  }

  /**
   * `ProcessArgs` throws exactly when `args` has odd length and its last
   * element, read as a key, is not null.
   */
  lemma ArgDictFailsIff(args: seq<Arg>)
    ensures ArgDict(args).Failure? <==> |args| % 2 == 1 && args[|args| - 1].Some?
    ensures ArgDict(args).Failure? ==> ArgDict(args).error == MissingValue(|args|)
  {
    ScanFails(args, Rounds(args));
  }

  /** Rounds that only read inside `args` give the same result on any extension of it. */
  lemma {:induction false} ScanPrefix(args: seq<Arg>, more: seq<Arg>, p: nat)
    requires 2 * p <= |args| && p <= Rounds(args) && p <= Rounds(args + more)
    ensures Scan(args + more, p) == Scan(args, p)
  {
    if p > 0 {
      ScanPrefix(args, more, p - 1);
      var a := args + more;
      assert a[2 * (p - 1)] == args[2 * (p - 1)] && a[2 * (p - 1) + 1] == args[2 * (p - 1) + 1];
    }
  }

  /** Appending one key/value pair to an even-length array adds or overwrites that one entry. */
  lemma AppendPair(args: seq<Arg>, key: string, value: string)
    requires |args| % 2 == 0
    ensures ArgDict(args).Success?
    ensures ArgDict(args + [Some(key), Some(value)])
            == Success(ArgDict(args).value[NormalizeKey(key) := Trim(value)])
  {
    ArgDictFailsIff(args);
    var a := args + [Some(key), Some(value)];
    var p := Rounds(args);
    assert Rounds(a) == p + 1 && 2 * p == |args|;
    ScanPrefix(args, [Some(key), Some(value)], p);
    assert a[2 * p] == Some(key) && a[2 * p + 1] == Some(value);
  }

  /** Round `p` stores `value` under `key`. */
  predicate PairFor(args: seq<Arg>, p: nat, key: string) {
    2 * p + 1 < |args| && args[2 * p].Some? && args[2 * p + 1].Some? && NormalizeKey(args[2 * p].value) == key
  }

  /** No round after `p` stores anything under `key`. */
  predicate NoLaterPair(args: seq<Arg>, p: nat, key: string) {
    forall q: nat :: p < q < Rounds(args) ==> !PairFor(args, q, key)
  }

  /** Round `q` is the last of the first `p` rounds to store under `key`. */
  predicate LastPairBefore(args: seq<Arg>, q: nat, p: nat, key: string) {
    q < p && PairFor(args, q, key) && forall r: nat :: q < r < p ==> !PairFor(args, r, key)
  }

  /**
   * After `p` rounds, a key is present exactly when one of them stored it,
   * and its value is that of the last round that did.
   */
  lemma {:induction false} ScanLookup(args: seq<Arg>, p: nat, key: string)
    requires p <= Rounds(args) && Scan(args, p).Success?
    ensures key in Scan(args, p).value <==> exists q: nat :: q < p && PairFor(args, q, key)
    ensures forall q: nat :: LastPairBefore(args, q, p, key)
              ==> key in Scan(args, p).value && Scan(args, p).value[key] == Trim(args[2 * q + 1].value)
  {
    if p > 0 {
      ScanLookup(args, p - 1, key);
      var m := Scan(args, p - 1).value;
      var m' := Scan(args, p).value;
      if PairFor(args, p - 1, key) {
        assert m' == m[key := Trim(args[2 * (p - 1) + 1].value)];
      } else {
        assert key in m' <==> key in m;
        assert key in m' ==> m'[key] == m[key];
      }
      forall q: nat | LastPairBefore(args, q, p, key)
        ensures key in m' && m'[key] == Trim(args[2 * q + 1].value)
      {
        if q < p - 1 {
          assert !PairFor(args, p - 1, key);
          assert LastPairBefore(args, q, p - 1, key);
        }
      }
    }
  }

  /**
   * A key is in the dictionary exactly when some pair stores it; its value is
   * the trimmed value of the last such pair, so a later duplicate wins.
   */
  lemma ArgDictLookup(args: seq<Arg>, key: string)
    requires ArgDict(args).Success?
    ensures key in ArgDict(args).value <==> exists q: nat :: q < Rounds(args) && PairFor(args, q, key)
    ensures forall q: nat :: q < Rounds(args) && PairFor(args, q, key) && NoLaterPair(args, q, key)
              ==> key in ArgDict(args).value && ArgDict(args).value[key] == Trim(args[2 * q + 1].value)
  {
    ScanLookup(args, Rounds(args), key);
    forall q: nat | q < Rounds(args) && PairFor(args, q, key) && NoLaterPair(args, q, key)
      ensures LastPairBefore(args, q, Rounds(args), key)
    {
    }
  }

  /** The process's mode; `Enum.Parse` of its name at line 44. */
  datatype AppMode = Normal | Unattended

  function AppModeName(m: AppMode): string {
    match m
    case Normal => "Normal"
    case Unattended => "Unattended"
  }

  /** `Enum.Parse(typeof(AppMode), name)`: an exact, case-sensitive match of a member name. */
  function ParseAppMode(name: string): (r: Option<AppMode>)
    ensures r.Some? ==> AppModeName(r.value) == name
    ensures r.None? ==> forall m: AppMode :: AppModeName(m) != name
  {
    if name == "Normal" then Some(Normal)
    else if name == "Unattended" then Some(Unattended)
    else None
  }

  /** What stops `Main` before it connects: the throw in `ProcessArgs`, a missing key, an unknown mode. */
  datatype StartupError = BadArgs(cause: ArgError) | MissingKey(key: string) | UnknownMode(name: string)

  /** The static properties `Main` fills from the dictionary (lines 44-48). */
  datatype LaunchParams = LaunchParams(mode: AppMode, requester: string, host: string, desktop: string, serviceId: string)

  predicate HasLaunchKeys(dict: map<string, string>) {
    "mode" in dict && "requester" in dict && "host" in dict && "desktop" in dict && "serviceid" in dict
  }

  /** Lines 44-48: the indexer throws on the first missing key, in the order the source reads them. */
  function ReadLaunchParams(dict: map<string, string>): (r: Result<LaunchParams, StartupError>)
    ensures r.Success? <==> HasLaunchKeys(dict) && ParseAppMode(dict["mode"]).Some?
    ensures r.Success? ==> AppModeName(r.value.mode) == dict["mode"]
                           && r.value.requester == dict["requester"] && r.value.host == dict["host"]
                           && r.value.desktop == dict["desktop"] && r.value.serviceId == dict["serviceid"]
    ensures "mode" !in dict ==> r == Failure(MissingKey("mode"))
  {
    if "mode" !in dict then Failure(MissingKey("mode"))
    else match ParseAppMode(dict["mode"])
      case None => Failure(UnknownMode(dict["mode"]))
      case Some(mode) =>
        if "requester" !in dict then Failure(MissingKey("requester"))
        else if "host" !in dict then Failure(MissingKey("host"))
        else if "desktop" !in dict then Failure(MissingKey("desktop"))
        else if "serviceid" !in dict then Failure(MissingKey("serviceid"))
        else Success(LaunchParams(mode, dict["requester"], dict["host"], dict["desktop"], dict["serviceid"]))
  }

  /** Lines 43-48 together: the parameters and the dictionary they came from, or why startup stops. */
  function ReadCommandLine(args: seq<Arg>): (r: Result<(LaunchParams, map<string, string>), StartupError>)
    ensures r.Success? ==> ArgDict(args) == Success(r.value.1) && ReadLaunchParams(r.value.1) == Success(r.value.0)
    ensures ArgDict(args).Failure? ==> r == Failure(BadArgs(ArgDict(args).error))
    ensures ArgDict(args).Success? && !HasLaunchKeys(ArgDict(args).value) ==> r.Failure?
    ensures ArgDict(args).Success? && ReadLaunchParams(ArgDict(args).value).Failure? ==>
              r == Failure(ReadLaunchParams(ArgDict(args).value).error)
    ensures ArgDict(args).Success? && ReadLaunchParams(ArgDict(args).value).Success? ==>
              r == Success((ReadLaunchParams(ArgDict(args).value).value, ArgDict(args).value))
  {
    match ArgDict(args)
    case Failure(e) => Failure(BadArgs(e))
    case Success(dict) =>
      match ReadLaunchParams(dict)
      case Failure(e) => Failure(e)
      case Success(p) => Success((p, dict))
  }

  /** The arguments a process receives from the words of its command line: every word but the first, none null. */
  function CommandLineArgs(commandLine: string): seq<Arg> {
    var words := Tokenize(commandLine);
    if |words| == 0 then [] else AsArgs(words[1..])
  }

  function AsArgs(words: seq<string>): (args: seq<Arg>)
    ensures |args| == |words|
    ensures forall i :: 0 <= i < |words| ==> args[i] == Some(words[i])
  {
    if |words| == 0 then [] else [Some(words[0])] + AsArgs(words[1..])
  }

  /** A flag name and its value, written `-name value` on a command line. */
  type Pair = (string, string)

  /** `" -name value"` for each pair in turn, as the interpolated strings at lines 112 and 125 write them. */
  function PairsLine(pairs: seq<Pair>): string {
    if |pairs| == 0 then ""
    else " -" + pairs[0].0 + " " + pairs[0].1 + PairsLine(pairs[1..])
  }

  lemma PairsLineCons(pair: Pair, rest: seq<Pair>)
    ensures PairsLine([pair] + rest) == " -" + pair.0 + " " + pair.1 + PairsLine(rest)
  {
    assert ([pair] + rest)[1..] == rest;
  }

  /** The words of `PairsLine(pairs)`. */
  function PairWords(pairs: seq<Pair>): (words: seq<string>)
    ensures |words| == 2 * |pairs|
  {
    if |pairs| == 0 then []
    else ["-" + pairs[0].0, pairs[0].1] + PairWords(pairs[1..])
  }

  /** The dictionary `ProcessArgs` builds from the pairs in order. */
  function PairsMap(pairs: seq<Pair>): map<string, string> {
    if |pairs| == 0 then map[]
    else PairsMap(pairs[..|pairs| - 1])[pairs[|pairs| - 1].0 := pairs[|pairs| - 1].1]
  }

  /** A flag name that `NormalizeKey` leaves alone once its `-` is gone: lower-case ASCII letters. */
  predicate IsFlagName(name: string) {
    |name| > 0 && forall i :: 0 <= i < |name| ==> 'a' <= name[i] <= 'z'
  }

  /** A value that survives tokenizing and trimming unchanged. */
  predicate IsPlainValue(v: string) {
    |v| > 0 && NoWhiteSpace(v)
  }

  predicate SpaceFree(pairs: seq<Pair>) {
    forall k :: 0 <= k < |pairs| ==> ' ' !in pairs[k].0 && ' ' !in pairs[k].1
  }

  predicate WellFormedPairs(pairs: seq<Pair>) {
    forall k :: 0 <= k < |pairs| ==> IsFlagName(pairs[k].0) && IsPlainValue(pairs[k].1)
  }

  /** `-name` is stored under `name`. */
  lemma FlagKey(name: string)
    requires IsFlagName(name)
    ensures NormalizeKey("-" + name) == name
  {
    var f := "-" + name;
    assert NoWhiteSpace(f) by {
      forall i | 0 <= i < |f| ensures !IsWhiteSpace(f[i]) {
        if i > 0 {
          assert f[i] == name[i - 1];
        }
      }
    }
    assert '-' !in name by {
      forall i | 0 <= i < |name| ensures name[i] != '-' {
      }
    }
    assert f[1..] == name;
    assert RemoveAll(f, '-') == name;
    assert ToLower(name) == name;
  }

  /** A command line of separate words splits at each space. */
  lemma {:induction false} SplitPairsLine(head: string, pairs: seq<Pair>)
    requires ' ' !in head && SpaceFree(pairs)
    ensures Split(head + PairsLine(pairs), ' ') == [head] + PairWords(pairs)
    decreases |pairs|
  {
    if |pairs| == 0 {
      assert head + PairsLine(pairs) == head;
      SplitWithoutSeparator(head, ' ');
    } else {
      var flag, v, tail := "-" + pairs[0].0, pairs[0].1, pairs[1..];
      LineHead(head, pairs);
      SplitHead(head, ' ', flag + [' '] + (v + PairsLine(tail)));
      SplitHead(flag, ' ', v + PairsLine(tail));
      assert SpaceFree(tail) by {
        assert forall k :: 0 <= k < |tail| ==> tail[k] == pairs[k + 1];
      }
      SplitPairsLine(v, tail);
      assert PairWords(pairs) == [flag] + ([v] + PairWords(tail));
    }
  }

  /** The first pair of a line, cut at its two spaces. */
  lemma LineHead(head: string, pairs: seq<Pair>)
    requires |pairs| > 0 && ' ' !in pairs[0].0
    ensures ' ' !in "-" + pairs[0].0
    ensures head + PairsLine(pairs)
            == head + [' '] + (("-" + pairs[0].0) + [' '] + (pairs[0].1 + PairsLine(pairs[1..])))
  {
    var flag, v, rest := "-" + pairs[0].0, pairs[0].1, PairsLine(pairs[1..]);
    assert " -" + pairs[0].0 == [' '] + flag;
    RegroupWords(head, [' '] + flag, [' '], v, rest);
  }

  lemma RegroupWords(head: string, flag: string, sp: string, v: string, rest: string)
    requires |flag| > 0 && |sp| == 1
    ensures head + (flag + sp + v + rest) == head + [flag[0]] + (flag[1..] + sp + (v + rest))
  {
    assert flag == [flag[0]] + flag[1..];
  }

  /** The arguments of `exe + PairsLine(pairs)`, as the new process receives them. */
  lemma PairsLineArgs(exe: string, pairs: seq<Pair>)
    requires exe != [] && ' ' !in exe && SpaceFree(pairs)
    ensures CommandLineArgs(exe + PairsLine(pairs)) == AsArgs(DropEmpty(PairWords(pairs)))
  {
    SplitPairsLine(exe, pairs);
    DropEmptyConcat([exe], PairWords(pairs));
    assert DropEmpty([exe]) == [exe];
  }

  /** Well-formed pairs have no empty word. */
  lemma {:induction false} PairWordsNonEmpty(pairs: seq<Pair>)
    requires WellFormedPairs(pairs)
    ensures forall k :: 0 <= k < |PairWords(pairs)| ==> |PairWords(pairs)[k]| > 0
  {
    if |pairs| > 0 {
      PairWordsNonEmpty(pairs[1..]);
    }
  }

  lemma {:induction false} PairWordsSnoc(pairs: seq<Pair>, last: Pair)
    ensures PairWords(pairs + [last]) == PairWords(pairs) + ["-" + last.0, last.1]
  {
    if |pairs| > 0 {
      PairWordsSnoc(pairs[1..], last);
      assert (pairs + [last])[1..] == pairs[1..] + [last];
    } else {
      assert pairs + [last] == [last];
    }
  }

  lemma {:induction false} AsArgsConcat(a: seq<string>, b: seq<string>)
    ensures AsArgs(a + b) == AsArgs(a) + AsArgs(b)
  {
  }

  lemma DoubleIsEven(n: nat)
    ensures (2 * n) % 2 == 0
  {
  }

  /**
   * Well-formed pairs read back through `ProcessArgs` into exactly the
   * dictionary that maps each name to its value, a later pair winning.
   */
  lemma {:induction false} ArgDictOfPairs(pairs: seq<Pair>)
    requires WellFormedPairs(pairs)
    ensures ArgDict(AsArgs(PairWords(pairs))) == Success(PairsMap(pairs))
  {
    if |pairs| > 0 {
      var init := pairs[..|pairs| - 1];
      var last := pairs[|pairs| - 1];
      assert init + [last] == pairs;
      var before := AsArgs(PairWords(init));
      ArgDictOfPairs(init);
      PairWordsSnoc(init, last);
      AsArgsConcat(PairWords(init), ["-" + last.0, last.1]);
      assert AsArgs(PairWords(pairs)) == before + [Some("-" + last.0), Some(last.1)];
      DoubleIsEven(|init|);
      AppendPair(before, "-" + last.0, last.1);
      FlagKey(last.0);
      assert Trim(last.1) == last.1;
      assert PairsMap(pairs) == PairsMap(init)[last.0 := last.1];
    }
  }

  lemma ParseAppModeName(m: AppMode)
    ensures ParseAppMode(AppModeName(m)) == Some(m)
  {
  }

  /** Line 112: the command line that relaunches the process on the live desktop. */
  function RelaunchCommandLine(exe: string, p: LaunchParams, desktopName: string): string {
    exe + " -mode " + AppModeName(p.mode) + " -requester " + p.requester + " -serviceid " + p.serviceId
      + " -host " + p.host + " -desktop " + desktopName
  }

  /** Line 125: the command line that continues the session on the new desktop. */
  function SwitchCommandLine(exe: string, p: LaunchParams, desktopName: string, viewers: seq<string>): string {
    exe + " -mode " + AppModeName(p.mode) + " -requester " + p.requester + " -serviceid " + p.serviceId
      + " -host " + p.host + " -desktopswitch true -desktop " + desktopName + " -viewers " + Join(viewers, ',')
  }

  function RelaunchPairs(p: LaunchParams, desktopName: string): seq<Pair> {
    [("mode", AppModeName(p.mode)), ("requester", p.requester), ("serviceid", p.serviceId),
     ("host", p.host), ("desktop", desktopName)]
  }

  function SwitchPairs(p: LaunchParams, desktopName: string, viewers: seq<string>): seq<Pair> {
    [("mode", AppModeName(p.mode)), ("requester", p.requester), ("serviceid", p.serviceId),
     ("host", p.host), ("desktopswitch", "true"), ("desktop", desktopName), ("viewers", Join(viewers, ','))]
  }

  /** The first four pairs of both lines, as the source interpolates them, ahead of `rest`. */
  lemma CommonPairsLine(p: LaunchParams, rest: seq<Pair>)
    ensures PairsLine(CommonPairs(p) + rest)
            == " -mode " + AppModeName(p.mode) + (" -requester " + p.requester + (" -serviceid " + p.serviceId
               + (" -host " + p.host + PairsLine(rest))))
  {
    var a, b := ("mode", AppModeName(p.mode)), ("requester", p.requester);
    var c, d := ("serviceid", p.serviceId), ("host", p.host);
    assert CommonPairs(p) + rest == [a] + ([b] + ([c] + ([d] + rest)));
    PairsLineCons(d, rest);
    assert " -" + d.0 + " " == " -host ";
    PairsLineCons(c, [d] + rest);
    assert " -" + c.0 + " " == " -serviceid ";
    PairsLineCons(b, [c] + ([d] + rest));
    assert " -" + b.0 + " " == " -requester ";
    PairsLineCons(a, [b] + ([c] + ([d] + rest)));
    assert " -" + a.0 + " " == " -mode ";
  }

  /** The string at line 112 is the executable followed by its five pairs. */
  lemma RelaunchLinePairs(exe: string, p: LaunchParams, desktopName: string)
    ensures RelaunchCommandLine(exe, p, desktopName) == exe + PairsLine(RelaunchPairs(p, desktopName))
  {
    var e := ("desktop", desktopName);
    assert RelaunchPairs(p, desktopName) == CommonPairs(p) + [e];
    CommonPairsLine(p, [e]);
    PairsLineCons(e, []);
    assert [e] + [] == [e];
    assert PairsLine([e]) == " -desktop " + desktopName;
    RegroupPairs(exe, " -mode ", AppModeName(p.mode), " -requester ", p.requester, " -serviceid ", p.serviceId,
                 " -host ", p.host, PairsLine([e]));
  }

  /** The last three pairs of line 125 written out. */
  lemma SwitchTailLine(desktopName: string, ids: string)
    ensures PairsLine([("desktopswitch", "true")] + ([("desktop", desktopName)] + [("viewers", ids)]))
            == " -desktopswitch true -desktop " + desktopName + " -viewers " + ids
  {
    var e, f, g := ("desktopswitch", "true"), ("desktop", desktopName), ("viewers", ids);
    PairsLineCons(g, []);
    assert [g] + [] == [g];
    PairsLineCons(f, [g]);
    PairsLineCons(e, [f] + [g]);
    var x, y, z := " -desktopswitch true", " -desktop ", " -viewers ";
    assert " -" + e.0 + " " + e.1 == x;
    assert " -" + f.0 + " " == y;
    assert " -" + g.0 + " " == z;
    assert x + y == " -desktopswitch true -desktop ";
    RegroupTail3(x, y, desktopName, z, ids);
  }

  lemma RegroupTail3(x: string, y: string, d: string, z: string, ids: string)
    ensures x + (y + d + (z + ids + "")) == (x + y) + d + z + ids
  {
    assert z + ids + "" == z + ids;
  }

  /** The string at line 125 is the executable followed by its seven pairs. */
  lemma SwitchLinePairs(exe: string, p: LaunchParams, desktopName: string, viewers: seq<string>)
    ensures SwitchCommandLine(exe, p, desktopName, viewers) == exe + PairsLine(SwitchPairs(p, desktopName, viewers))
  {
    var ids := Join(viewers, ',');
    var tail := [("desktopswitch", "true")] + ([("desktop", desktopName)] + [("viewers", ids)]);
    assert SwitchPairs(p, desktopName, viewers) == CommonPairs(p) + tail;
    CommonPairsLine(p, tail);
    SwitchTailLine(desktopName, ids);
    var x := exe + " -mode " + AppModeName(p.mode) + " -requester " + p.requester + " -serviceid " + p.serviceId
             + " -host " + p.host;
    RegroupPairs(exe, " -mode ", AppModeName(p.mode), " -requester ", p.requester, " -serviceid ", p.serviceId,
                 " -host ", p.host, PairsLine(tail));
    RegroupTail(x, " -desktopswitch true -desktop ", desktopName, " -viewers ", ids);
  }

  lemma RegroupPairs(exe: string, k1: string, v1: string, k2: string, v2: string,
                     k3: string, v3: string, k4: string, v4: string, t: string)
    ensures exe + (k1 + v1 + (k2 + v2 + (k3 + v3 + (k4 + v4 + t))))
            == exe + k1 + v1 + k2 + v2 + k3 + v3 + k4 + v4 + t
  {
  }

  lemma RegroupTail(x: string, a: string, b: string, c: string, d: string)
    ensures x + (a + b + c + d) == x + a + b + c + d
  {
  }

  lemma PairsMapSnoc(init: seq<Pair>, last: Pair)
    ensures PairsMap(init + [last]) == PairsMap(init)[last.0 := last.1]
  {
    assert (init + [last])[..|init|] == init;
  }

  lemma WellFormedIsSpaceFree(pairs: seq<Pair>)
    requires WellFormedPairs(pairs)
    ensures SpaceFree(pairs)
  {
    forall k | 0 <= k < |pairs| ensures ' ' !in pairs[k].0 && ' ' !in pairs[k].1 {
      assert IsFlagName(pairs[k].0) && IsPlainValue(pairs[k].1);
    }
  }

  /** Well-formed pairs after a space-free executable name read back as their dictionary. */
  lemma ReadBackPairs(exe: string, pairs: seq<Pair>)
    requires exe != [] && ' ' !in exe && WellFormedPairs(pairs)
    ensures ArgDict(CommandLineArgs(exe + PairsLine(pairs))) == Success(PairsMap(pairs))
  {
    WellFormedIsSpaceFree(pairs);
    PairsLineArgs(exe, pairs);
    PairWordsNonEmpty(pairs);
    DropEmptyKeepsWords(PairWords(pairs));
    ArgDictOfPairs(pairs);
  }

  /** The values `Main` passes on when it relaunches itself. */
  predicate PlainParams(p: LaunchParams) {
    IsPlainValue(p.requester) && IsPlainValue(p.serviceId) && IsPlainValue(p.host)
  }

  /** The first four pairs of both command lines. */
  function CommonPairs(p: LaunchParams): seq<Pair> {
    [("mode", AppModeName(p.mode)), ("requester", p.requester), ("serviceid", p.serviceId), ("host", p.host)]
  }

  lemma CommonPairsMap(p: LaunchParams)
    requires PlainParams(p)
    ensures WellFormedPairs(CommonPairs(p))
    ensures var m := PairsMap(CommonPairs(p));
            m.Keys == {"mode", "requester", "serviceid", "host"} && m["mode"] == AppModeName(p.mode)
            && m["requester"] == p.requester && m["serviceid"] == p.serviceId && m["host"] == p.host
  {
    var q0: seq<Pair> := [];
    var q1 := q0 + [("mode", AppModeName(p.mode))];
    var q2 := q1 + [("requester", p.requester)];
    var q3 := q2 + [("serviceid", p.serviceId)];
    var q4 := q3 + [("host", p.host)];
    assert q4 == CommonPairs(p);
    PairsMapSnoc(q0, q1[0]);
    PairsMapSnoc(q1, q2[1]);
    PairsMapSnoc(q2, q3[2]);
    PairsMapSnoc(q3, q4[3]);
    assert IsFlagName("mode") && IsFlagName("requester") && IsFlagName("serviceid") && IsFlagName("host");
    assert IsPlainValue(AppModeName(p.mode));
  }

  lemma FlagNames()
    ensures IsFlagName("mode") && IsFlagName("requester") && IsFlagName("serviceid") && IsFlagName("host")
    ensures IsFlagName("desktopswitch") && IsFlagName("desktop") && IsFlagName("viewers")
  {
  }

  /** The dictionary the relaunched process builds from line 112. */
  lemma RelaunchDict(p: LaunchParams, desktopName: string)
    requires PlainParams(p) && IsPlainValue(desktopName)
    ensures WellFormedPairs(RelaunchPairs(p, desktopName))
    ensures var m := PairsMap(RelaunchPairs(p, desktopName));
            HasLaunchKeys(m) && m["mode"] == AppModeName(p.mode) && m["requester"] == p.requester
            && m["serviceid"] == p.serviceId && m["host"] == p.host && m["desktop"] == desktopName
            && "desktopswitch" !in m && "viewers" !in m
  {
    var common := CommonPairs(p);
    assert RelaunchPairs(p, desktopName) == common + [("desktop", desktopName)];
    CommonPairsMap(p);
    PairsMapSnoc(common, ("desktop", desktopName));
    FlagNames();
  }

  /**
   * The relaunch at line 112 starts a process that reads back the same mode,
   * requester, service id and host with the live desktop, and that is not a
   * desktop-switch continuation.
   */
  lemma RelaunchRoundTrip(exe: string, p: LaunchParams, desktopName: string)
    requires exe != [] && ' ' !in exe && PlainParams(p) && IsPlainValue(desktopName)
    ensures var r := ReadCommandLine(CommandLineArgs(RelaunchCommandLine(exe, p, desktopName)));
            r.Success? && r.value.0 == p.(desktop := desktopName)
            && "desktopswitch" !in r.value.1 && "viewers" !in r.value.1
  {
    var ps := RelaunchPairs(p, desktopName);
    RelaunchLinePairs(exe, p, desktopName);
    RelaunchDict(p, desktopName);
    ReadBackPairs(exe, ps);
    ParseAppModeName(p.mode);
  }

  /** Pieces a join can carry through a command line and split back out. */
  predicate PlainIds(ids: seq<string>) {
    forall k :: 0 <= k < |ids| ==> IsPlainValue(ids[k]) && ',' !in ids[k]
  }

  /** The last three pairs of line 125. */
  function SwitchTail(desktopName: string, viewers: seq<string>): seq<Pair> {
    [("desktopswitch", "true"), ("desktop", desktopName), ("viewers", Join(viewers, ','))]
  }

  /** The dictionary the continuation builds from line 125. */
  lemma SwitchDict(p: LaunchParams, desktopName: string, viewers: seq<string>)
    requires PlainParams(p) && IsPlainValue(desktopName) && IsPlainValue(Join(viewers, ','))
    ensures WellFormedPairs(SwitchPairs(p, desktopName, viewers))
    ensures var m := PairsMap(SwitchPairs(p, desktopName, viewers));
            HasLaunchKeys(m) && m["mode"] == AppModeName(p.mode) && m["requester"] == p.requester
            && m["serviceid"] == p.serviceId && m["host"] == p.host && m["desktop"] == desktopName
            && "desktopswitch" in m && "viewers" in m && m["viewers"] == Join(viewers, ',')
  {
    var common := CommonPairs(p);
    var q5 := common + [("desktopswitch", "true")];
    var q6 := q5 + [("desktop", desktopName)];
    var ps := q6 + [("viewers", Join(viewers, ','))];
    assert ps == SwitchPairs(p, desktopName, viewers);
    CommonPairsMap(p);
    PairsMapSnoc(common, ("desktopswitch", "true"));
    PairsMapSnoc(q5, ("desktop", desktopName));
    PairsMapSnoc(q6, ("viewers", Join(viewers, ',')));
    FlagNames();
    assert IsPlainValue("true");
  }

  /**
   * The continuation started at line 125 reads back the same parameters with
   * the new desktop, is marked as a desktop switch, and splitting its
   * `viewers` value on `,` gives back the viewer ids.
   */
  lemma SwitchRoundTrip(exe: string, p: LaunchParams, desktopName: string, viewers: seq<string>)
    requires exe != [] && ' ' !in exe && PlainParams(p) && IsPlainValue(desktopName)
    requires |viewers| >= 1 && PlainIds(viewers)
    ensures var r := ReadCommandLine(CommandLineArgs(SwitchCommandLine(exe, p, desktopName, viewers)));
            r.Success? && r.value.0 == p.(desktop := desktopName)
            && "desktopswitch" in r.value.1 && "viewers" in r.value.1
            && Split(r.value.1["viewers"], ',') == viewers
  {
    JoinNoWhiteSpace(viewers, ',');
    JoinStartsWithFirst(viewers, ',');
    SplitJoin(viewers, ',');
    SwitchLinePairs(exe, p, desktopName, viewers);
    SwitchDict(p, desktopName, viewers);
    ReadBackPairs(exe, SwitchPairs(p, desktopName, viewers));
    ParseAppModeName(p.mode);
  }

  /** With no viewers the last word of line 125 is `-viewers` and the empty join is lost between spaces. */
  lemma NoViewersArgs(exe: string, p: LaunchParams, desktopName: string)
    requires exe != [] && ' ' !in exe && PlainParams(p) && IsPlainValue(desktopName)
    ensures var args := CommandLineArgs(SwitchCommandLine(exe, p, desktopName, []));
            |args| == 13 && args[12] == Some("-viewers")
  {
    var init := CommonPairs(p) + [("desktopswitch", "true"), ("desktop", desktopName)];
    var ps := init + [("viewers", "")];
    assert ps == SwitchPairs(p, desktopName, []);
    SwitchInitWellFormed(p, desktopName);
    NoViewersWords(init);
    SwitchLinePairs(exe, p, desktopName, []);
    PairsLineArgs(exe, ps);
  }

  /** The first six pairs of line 125 are well formed. */
  lemma SwitchInitWellFormed(p: LaunchParams, desktopName: string)
    requires PlainParams(p) && IsPlainValue(desktopName)
    ensures WellFormedPairs(CommonPairs(p) + [("desktopswitch", "true"), ("desktop", desktopName)])
  {
    CommonPairsMap(p);
    FlagNames();
    assert IsPlainValue("true");
  }

  /** An empty last value leaves its flag as the last word. */
  lemma NoViewersWords(init: seq<Pair>)
    requires WellFormedPairs(init)
    ensures SpaceFree(init + [("viewers", "")])
    ensures DropEmpty(PairWords(init + [("viewers", "")])) == PairWords(init) + ["-viewers"]
  {
    SnocSpaceFree(init, ("viewers", ""));
    PairWordsSnoc(init, ("viewers", ""));
    assert "-" + "viewers" == "-viewers";
    DropEmptyConcat(PairWords(init), ["-viewers", ""]);
    PairWordsNonEmpty(init);
    DropEmptyKeepsWords(PairWords(init));
    FlagThenEmpty("-viewers");
  }

  lemma SnocSpaceFree(init: seq<Pair>, last: Pair)
    requires WellFormedPairs(init) && ' ' !in last.0 && ' ' !in last.1
    ensures SpaceFree(init + [last])
  {
    WellFormedIsSpaceFree(init);
    var ps := init + [last];
    forall k | 0 <= k < |ps| ensures ' ' !in ps[k].0 && ' ' !in ps[k].1 {
      if k < |init| {
        assert ps[k] == init[k];
      }
    }
  }

  lemma FlagThenEmpty(flag: string)
    requires |flag| > 0
    ensures DropEmpty([flag, ""]) == [flag]
  {
    assert [flag, ""][1..] == [""];
    assert [""][1..] == [];
  }

  /**
   * With no viewers the string at line 125 ends in a bare `-viewers`, so the
   * continuation's `ProcessArgs` reads past the end of its 13 arguments.
   */
  lemma SwitchWithoutViewersFails(exe: string, p: LaunchParams, desktopName: string)
    requires exe != [] && ' ' !in exe && PlainParams(p) && IsPlainValue(desktopName)
    ensures ReadCommandLine(CommandLineArgs(SwitchCommandLine(exe, p, desktopName, [])))
            == Failure(BadArgs(MissingValue(13)))
  {
    var args := CommandLineArgs(SwitchCommandLine(exe, p, desktopName, []));
    NoViewersArgs(exe, p, desktopName);
    ArgDictFailsIff(args);
  }
}
