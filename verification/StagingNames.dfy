/** Names of staging files (clients/atomic-write-staging.ts:7-24):
    <target>.tmp-<pid>-<thread>-<seq>, and the pattern a sweeper decodes them with. */
module StagingNames {
  import opened JsMap
  import opened Text

  const MAX_SAFE_INTEGER: nat := 9007199254740991

  function StagePath(target: string, pid: nat, thread: nat, seqNo: nat): string {
    target + ".tmp" + ['-'] + Decimal(pid) + ['-'] + Decimal(thread) + ['-'] + Decimal(seqNo)
  }

  /** `0|[1-9]\d*` */
  predicate IsNumeral(s: string) { s == "0" || (s != "" && AllDigits(s) && s[0] != '0') }

  datatype Marker = Marker(prefix: string, pid: string, thread: string, seqNo: string)

  /** `/\.tmp-(0|[1-9]\d*)-(0|[1-9]\d*)-(0|[1-9]\d*)$/` matches `name` with these groups. */
  predicate Matches(name: string, m: Marker) {
    && IsNumeral(m.pid) && IsNumeral(m.thread) && IsNumeral(m.seqNo)
    && name == m.prefix + ".tmp" + ['-'] + m.pid + ['-'] + m.thread + ['-'] + m.seqNo
  }

  /** The match, found from the last three hyphens: a numeral contains none. */
  function ParseMarker(name: string): (r: Option<Marker>)
    ensures r.Some? ==> IsNumeral(r.value.pid)
  {
    var c := LastIndex(name, '-');
    if c < 0 then None else
    var b := LastIndex(name[..c], '-');
    if b < 0 then None else
    var a := LastIndex(name[..b], '-');
    if a < 4 || name[a - 4..a] != ".tmp" then None else
    var m := Marker(name[..a - 4], name[a + 1..b], name[b + 1..c], name[c + 1..]);
    if IsNumeral(m.pid) && IsNumeral(m.thread) && IsNumeral(m.seqNo) then Some(m) else None
  }

  /** The owner a sweeper reads off a directory entry. */
  function StageOwnerPid(name: string): Option<nat> {
    var m := ParseMarker(name);
    if m.None? then None
    else
      var pid := Numeral(m.value.pid);
      if 0 < pid <= MAX_SAFE_INTEGER then Some(pid) else None
  }

  lemma NumeralHasNoHyphen(s: string)
    requires IsNumeral(s)
    ensures '-' !in s
  {}

  lemma DecimalIsNumeral(n: nat)
    ensures IsNumeral(Decimal(n))
  {}

  lemma SplitAt(s: string, k: int)
    requires 0 <= k < |s|
    ensures s == s[..k] + [s[k]] + s[k + 1..]
  {}

  lemma JoinSplits(a: string, c: char, b: string)
    ensures (a + [c] + b)[..|a|] == a && (a + [c] + b)[|a| + 1..] == b
  {}

  lemma ParsedMatches(name: string)
    requires ParseMarker(name).Some?
    ensures Matches(name, ParseMarker(name).value)
  {
    hide LastIndex;
    var c := LastIndex(name, '-');
    var b := LastIndex(name[..c], '-');
    var a := LastIndex(name[..b], '-');
    SplitAt(name, c);
    SplitAt(name[..c], b);
    SplitAt(name[..b], a);
    assert name[..a] == name[..a - 4] + ".tmp";
    assert name[..c][..b] == name[..b] && name[..b][..a] == name[..a];
    assert name[..c][b + 1..] == name[b + 1..c] && name[..b][a + 1..] == name[a + 1..b];
  }

  lemma MatchParses(name: string, m: Marker)
    requires Matches(name, m)
    ensures ParseMarker(name) == Some(m)
  {
    hide LastIndex;
    NumeralHasNoHyphen(m.pid);
    NumeralHasNoHyphen(m.thread);
    NumeralHasNoHyphen(m.seqNo);
    var stem := m.prefix + ".tmp";
    var first := stem + ['-'] + m.pid;
    var second := first + ['-'] + m.thread;
    LastIndexOfJoin(second, '-', m.seqNo);
    JoinSplits(second, '-', m.seqNo);
    LastIndexOfJoin(first, '-', m.thread);
    JoinSplits(first, '-', m.thread);
    LastIndexOfJoin(stem, '-', m.pid);
    JoinSplits(stem, '-', m.pid);
    var a, b, c := |stem|, |first|, |second|;
    assert name[..c] == second && name[..b] == second[..b] == first && name[..a] == first[..a] == stem;
    assert name[b + 1..c] == second[b + 1..] && name[a + 1..b] == first[a + 1..];
    assert name[a - 4..a] == stem[a - 4..] == ".tmp" && name[..a - 4] == stem[..a - 4] == m.prefix;
  }

  /** A name has at most one reading under the pattern, and parsing finds it. */
  lemma MarkerIsTheMatch(name: string, m: Marker)
    ensures ParseMarker(name) == Some(m) <==> Matches(name, m)
  {
    if ParseMarker(name).Some? { ParsedMatches(name); }
    if Matches(name, m) { MatchParses(name, m); }
  }

  lemma MintedMatches(target: string, pid: nat, thread: nat, seqNo: nat)
    ensures Matches(StagePath(target, pid, thread, seqNo), Marker(target, Decimal(pid), Decimal(thread),
            Decimal(seqNo)))
  {
    DecimalIsNumeral(pid);
    DecimalIsNumeral(thread);
    DecimalIsNumeral(seqNo);
  }

  lemma {:induction false} NumeralReadsBack(s: string)
    requires IsNumeral(s)
    ensures Decimal(Numeral(s)) == s
  {
    if |s| == 1 {
      assert s[..0] == "";
      assert DigitChar((s[0] - '0') as nat) == s[0];
    } else {
      var front, last := s[..|s| - 1], s[|s| - 1];
      NumeralReadsBack(front);
      assert Numeral(front) != 0;
      assert s == front + [last] && DigitChar((last - '0') as nat) == last;
      TensAndOnes(Numeral(front), (last - '0') as nat);
    }
  }

  lemma TensAndOnes(tens: nat, ones: nat)
    requires tens > 0 && ones < 10
    ensures Decimal(tens * 10 + ones) == Decimal(tens) + [DigitChar(ones)]
  {}

  /** Every name the pattern matches is one that some call mints. */
  lemma MatchIsMinted(name: string, m: Marker)
    requires Matches(name, m)
    ensures name == StagePath(m.prefix, Numeral(m.pid), Numeral(m.thread), Numeral(m.seqNo))
  {
    NumeralReadsBack(m.pid);
    NumeralReadsBack(m.thread);
    NumeralReadsBack(m.seqNo);
  }

  /** The owner of a staging file is the process that minted it, whatever the target is called
      (it may itself end in a staging marker); only pid 0 and unsafe integers are refused. */
  lemma OwnerReadsBack(target: string, pid: nat, thread: nat, seqNo: nat)
    ensures StageOwnerPid(StagePath(target, pid, thread, seqNo))
            == if 0 < pid <= MAX_SAFE_INTEGER then Some(pid) else None
  {
    MintedMatches(target, pid, thread, seqNo);
    MatchParses(StagePath(target, pid, thread, seqNo), Marker(target, Decimal(pid), Decimal(thread), Decimal(seqNo)));
    DecimalReadsBack(pid);
  }

  /** Two calls share a staging file only if they are the same call on the same target. */
  lemma StagePathInjective(t1: string, p1: nat, th1: nat, s1: nat, t2: string, p2: nat, th2: nat, s2: nat)
    requires StagePath(t1, p1, th1, s1) == StagePath(t2, p2, th2, s2)
    ensures t1 == t2 && p1 == p2 && th1 == th2 && s1 == s2
  {
    var name := StagePath(t1, p1, th1, s1);
    MintedMatches(t1, p1, th1, s1);
    MintedMatches(t2, p2, th2, s2);
    MatchParses(name, Marker(t1, Decimal(p1), Decimal(th1), Decimal(s1)));
    MatchParses(name, Marker(t2, Decimal(p2), Decimal(th2), Decimal(s2)));
    DecimalInjective(p1, p2);
    DecimalInjective(th1, th2);
    DecimalInjective(s1, s2);
  }

  /** The owner is exactly the first number of a match, when that is a usable pid. */
  lemma OwnerIff(name: string, pid: nat)
    ensures StageOwnerPid(name) == Some(pid)
            <==> 0 < pid <= MAX_SAFE_INTEGER && exists m: Marker :: Matches(name, m) && Numeral(m.pid) == pid
  {
    if ParseMarker(name).Some? { ParsedMatches(name); }
    if m: Marker :| Matches(name, m) && Numeral(m.pid) == pid { MatchParses(name, m); }
  }
}
