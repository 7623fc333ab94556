/**
 * The two string decisions of the agent's file handling
 * (Remotely_Agent/Services/DeviceSocket.cs): the name of the temporary copy
 * of the screen-cast executable (lines 253-260), and the file name taken
 * from a `Content-Disposition` header (lines 189 and 213).
 */
module AgentFiles {
  import opened Wrappers
  import opened Text

  /** The i-th name the loop tries: `Remotely_ScreenCast.exe`, then `Remotely_ScreenCast0.exe`, `Remotely_ScreenCast1.exe`, ... */
  function TempCandidate(i: nat): string {
    if i == 0 then "Remotely_ScreenCast.exe" else "Remotely_ScreenCast" + NatToString(i - 1) + ".exe"
  }

  /**
   * Every candidate matches the `Remotely_ScreenCast*` pattern whose files
   * the cleanup of line 244 deletes, ends in `.exe`, and contains no space.
   */
  lemma TempCandidateShape(i: nat)
    ensures var name := TempCandidate(i);
            "Remotely_ScreenCast" <= name && |name| >= 23 && name[|name| - 4..] == ".exe"
    ensures ' ' !in TempCandidate(i)
  {
    if i > 0 {
      var digits := NatToString(i - 1);
      assert forall k :: 0 <= k < |digits| ==> digits[k] != ' ';
    }
  }

  /** No name is tried twice. */
  lemma CandidatesDistinct(i: nat, j: nat)
    requires TempCandidate(i) == TempCandidate(j)
    ensures i == j
  {
    var pre := "Remotely_ScreenCast";
    if i != 0 && j != 0 {
      var a, b := NatToString(i - 1), NatToString(j - 1);
      assert |a| == |b|;
      assert a == TempCandidate(i)[|pre|..|pre| + |a|];
      assert b == TempCandidate(j)[|pre|..|pre| + |b|];
      NatToStringInjective(i - 1, j - 1);
    }
  }

  /**
   * The loop of lines 254-260 over the names `existing` in the temp
   * directory: the first candidate that does not exist, and the final
   * value of `count`. It ends for every finite set of names.
   */
  method ChooseTempFileName(existing: set<string>) returns (name: string, count: nat)
    ensures name !in existing
    ensures name == TempCandidate(count)
    ensures forall j :: 0 <= j < count ==> TempCandidate(j) in existing
  {
    count := 0;
    name := "Remotely_ScreenCast.exe";
    ghost var tried: set<string> := {};
    while name in existing
      invariant name == TempCandidate(count)
      invariant forall j :: 0 <= j < count ==> TempCandidate(j) in tried
      invariant forall x :: x in tried ==> exists j :: 0 <= j < count && x == TempCandidate(j)
      invariant tried <= existing && |tried| == count
      decreases |existing| - |tried|
    {
      if name in tried {
        var j :| 0 <= j < count && name == TempCandidate(j);
        CandidatesDistinct(j, count);
      }
      SubsetSize(tried + {name}, existing);
      tried := tried + {name};
      name := "Remotely_ScreenCast" + NatToString(count) + ".exe";
      count := count + 1;
    }
  }

  lemma {:induction false} SubsetSize<T>(a: set<T>, b: set<T>)
    requires a <= b
    ensures |a| <= |b|
    decreases |b|
  {
    if a != {} {
      var x :| x in a;
      SubsetSize(a - {x}, b - {x});
    }
  }

  /** A `;`-segment whose trimmed form starts with `filename`. */
  predicate IsFilenameSegment(segment: string) {
    "filename" <= Trim(segment)
  }

  /** `FirstOrDefault(x => x.Trim().StartsWith("filename"))`, as an index. */
  function FirstFilenameSegment(segments: seq<string>, from: nat := 0): (r: Option<nat>)
    requires from <= |segments|
    ensures r.Some? ==> from <= r.value < |segments| && IsFilenameSegment(segments[r.value])
    ensures r.Some? ==> forall j :: from <= j < r.value ==> !IsFilenameSegment(segments[j])
    ensures r.None? ==> forall j :: from <= j < |segments| ==> !IsFilenameSegment(segments[j])
    decreases |segments| - from
  {
    if from == |segments| then None
    else if IsFilenameSegment(segments[from]) then Some(from)
    else FirstFilenameSegment(segments, from + 1)
  }

  /** `v` is the text between the first `=` of `segment` and the next `=` or the end. */
  predicate SecondField(segment: string, v: string) {
    '=' !in v &&
    exists p :: 0 <= p < |segment| && segment[p] == '=' && '=' !in segment[..p]
      && p + 1 + |v| <= |segment| && segment[p + 1..p + 1 + |v|] == v
      && (p + 1 + |v| == |segment| || segment[p + 1 + |v|] == '=')
  }

  /**
   * Line 189 (and 213): the file name of a download. `None` is where the
   * source throws: no segment starts with `filename` (`FirstOrDefault`
   * gives null) or that segment has no `=` (index 1 is out of range).
   * The value is not trimmed or unquoted.
   */
  function ExtractFilename(contentDisposition: string): (r: Option<string>)
    ensures var segments := Split(contentDisposition, ';');
            var first := FirstFilenameSegment(segments);
            r.Some? <==> first.Some? && '=' in segments[first.value]
    ensures var segments := Split(contentDisposition, ';');
            r.Some? ==> SecondField(segments[FirstFilenameSegment(segments).value], r.value)
    ensures r.Some? ==> ';' !in r.value
  {
    var segments := Split(contentDisposition, ';');
    match FirstFilenameSegment(segments)
    case None => None
    case Some(i) =>
      var pieces := Split(segments[i], '=');
      if |pieces| < 2 then
        SplitFirstPiece(segments[i], '=');
        None
      else
        SecondPiece(segments[i]);
        Some(pieces[1])
  }

  /** The second `=`-piece of a segment is its `SecondField`, and it has no character the segment lacks. */
  lemma SecondPiece(segment: string)
    requires |Split(segment, '=')| >= 2
    ensures SecondField(segment, Split(segment, '=')[1])
    ensures forall x :: x in Split(segment, '=')[1] ==> x in segment
  {
    var pieces := Split(segment, '=');
    SplitFirstPiece(segment, '=');
    var p := |pieces[0]|;
    if p == |segment| {
      SplitWithoutSeparator(segment, '=');
      assert false;
    }
    var rest := segment[p + 1..];
    assert pieces[1..] == Split(rest, '=');
    SplitFirstPiece(rest, '=');
    var v := pieces[1];
    assert v == Split(rest, '=')[0] && v == rest[..|v|];
    assert segment[..p] == pieces[0] && '=' !in pieces[0];
    assert segment[p + 1..p + 1 + |v|] == v;
    assert p + 1 + |v| == |segment| || segment[p + 1 + |v|] == '=' by {
      if |v| < |rest| {
        assert rest[|v|] == segment[p + 1 + |v|];
      }
    }
    assert SecondField(segment, v);
    forall x | x in v
      ensures x in segment
    {
      var k :| 0 <= k < |v| && v[k] == x;
      assert segment[p + 1 + k] == x;
    }
  }

  /** The header ASP.NET Core writes for a file result named `name`. */
  function FileResultHeader(name: string): string {
    "attachment" + ";" + " filename=" + name + ";" + " filename*=UTF-8''" + name
  }

  /** A plain file name survives the round trip through its `Content-Disposition` header. */
  lemma ExtractFromFileResultHeader(name: string)
    requires ';' !in name && '=' !in name && NoWhiteSpace(name)
    ensures ExtractFilename(FileResultHeader(name)) == Some(name)
  {
    var header := FileResultHeader(name);
    HeaderSegments(name);
    var segments := Split(header, ';');
    AttachmentIsNoFilename();
    FilenameSegment(name);
    SecondSegmentFirst(segments);
    FilenameSegmentSplits(name);
    ExtractAt(header, 1, " filename=" + name, name);
  }

  lemma SecondSegmentFirst(segments: seq<string>)
    requires |segments| >= 2 && !IsFilenameSegment(segments[0]) && IsFilenameSegment(segments[1])
    ensures FirstFilenameSegment(segments) == Some(1)
  {
  }

  lemma ExtractAt(cd: string, i: nat, segment: string, v: string)
    requires FirstFilenameSegment(Split(cd, ';')) == Some(i)
    requires Split(cd, ';')[i] == segment
    requires |Split(segment, '=')| == 2 && Split(segment, '=')[1] == v
    ensures ExtractFilename(cd) == Some(v)
  {
  }

  lemma FilenameSegmentSplits(name: string)
    requires '=' !in name
    ensures Split(" filename=" + name, '=') == [" filename", name]
  {
    assert " filename=" + name == " filename" + ['='] + name;
    SplitHead(" filename", '=', name);
    SplitWithoutSeparator(name, '=');
  }

  lemma AttachmentIsNoFilename()
    ensures !IsFilenameSegment("attachment")
  {
    assert NoWhiteSpace("attachment");
    assert Trim("attachment")[0] != 'f';
  }

  lemma FilenameSegment(name: string)
    requires NoWhiteSpace(name) && '=' !in name
    ensures IsFilenameSegment(" filename=" + name)
  {
    var t := "filename=" + name;
    assert NoWhiteSpace(t);
    TrimLeadingSpace(t);
    assert " filename=" + name == [' '] + t;
    assert t[..8] == "filename";
  }

  lemma HeaderSegments(name: string)
    requires ';' !in name
    ensures Split(FileResultHeader(name), ';') == ["attachment", " filename=" + name, " filename*=UTF-8''" + name]
  {
    var s0, s1, s2 := "attachment", " filename=" + name, " filename*=UTF-8''" + name;
    assert FileResultHeader(name) == s0 + [';'] + s1 + [';'] + s2;
    assert ';' !in " filename=" && ';' !in " filename*=UTF-8''";
    SplitThree(s0, s1, s2, ';');
  }

  lemma TrimLeadingSpace(t: string)
    requires NoWhiteSpace(t)
    ensures Trim([' '] + t) == t
  {
    var s := [' '] + t;
    assert s[1..] == t;
    assert TrimStart(s) == TrimStart(t) == t;
  }
}
