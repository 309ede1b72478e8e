// The bounded audit log both command services keep
// (api/internal/control/state.go:291-314, api/internal/orchestration/orchestrator.go:217-256).
module AuditLog {
  import opened Sequences
  import opened Decimal

  const CAP: nat := 1000

  // Appends, then drops the oldest beyond the cap.
  function Keep<T>(log: seq<T>, e: T): seq<T> {
    var l := log + [e];
    if |l| > CAP then l[|l| - CAP..] else l
  }

  lemma KeepIsWindow<T>(full: seq<T>, e: T)
    ensures Keep(LastN(full, CAP), e) == LastN(full + [e], CAP)
  {
  }

  // A thousand entries stay.
  lemma KeepsAThousand<T>(full: seq<T>, e: T)
    ensures |Keep(LastN(full, CAP), e)| == if |full| < 1000 then |full| + 1 else 1000
    ensures Keep(LastN(full, CAP), e)[|Keep(LastN(full, CAP), e)| - 1] == e
  {
  }

  // How many entries a query for `limit` yields: all of them if the limit is not
  // positive or too large.
  function Limit(n: nat, limit: int): nat { if limit <= 0 || limit > n then n else limit }

  // The audit query: the most recent entries, oldest first.
  method Query<T>(log: seq<T>, limit: int) returns (out: seq<T>)
    ensures out == LastN(log, Limit(|log|, limit))
  {
    var n := limit;
    if limit <= 0 || limit > |log| {
      n := |log|;
    }
    out := [];
    for i := |log| - n to |log|
      invariant out == log[|log| - n..i]
    {
      out := out + [log[i]];
    }
  }

  function Id(prefix: string, seqNo: nat): string { prefix + Format(seqNo) }

  lemma IdInjective(prefix: string, m: nat, n: nat)
    ensures Id(prefix, m) == Id(prefix, n) ==> m == n
  {
    assert Id(prefix, m)[|prefix|..] == Format(m) && Id(prefix, n)[|prefix|..] == Format(n);
    FormatInjective(m, n);
  }

  // ---- In which order a query answers --------------------------------------

  // The ids of a log whose entries were numbered from 1 on.
  ghost predicate NumberedFrom1(prefix: string, ids: seq<string>) {
    forall i :: 0 <= i < |ids| ==> ids[i] == Id(prefix, i + 1)
  }

  // `a` was given out before `b`.
  ghost predicate Older(prefix: string, a: string, b: string) {
    exists m, n :: m < n && a == Id(prefix, m) && b == Id(prefix, n)
  }

  ghost predicate OldestFirst(prefix: string, ids: seq<string>) {
    forall i, j :: 0 <= i < j < |ids| ==> Older(prefix, ids[i], ids[j])
  }

  ghost predicate NewestFirst(prefix: string, ids: seq<string>) {
    forall i, j :: 0 <= i < j < |ids| ==> Older(prefix, ids[j], ids[i])
  }

  lemma OlderIsAsymmetric(prefix: string, a: string, b: string)
    requires Older(prefix, a, b)
    ensures !Older(prefix, b, a)
  {
    var m: nat, n: nat :| m < n && a == Id(prefix, m) && b == Id(prefix, n);
    if Older(prefix, b, a) {
      var p: nat, q: nat :| p < q && b == Id(prefix, p) && a == Id(prefix, q);
      IdInjective(prefix, m, q);
      IdInjective(prefix, n, p);
    }
  }

  // A query of the retained window answers oldest first, whatever its limit; so it
  // answers newest first iff it has at most one entry to answer.
  lemma WindowOrder(prefix: string, full: seq<string>, n: nat)
    requires NumberedFrom1(prefix, full)
    ensures OldestFirst(prefix, LastN(full, n))
    ensures NewestFirst(prefix, LastN(full, n)) <==> |LastN(full, n)| <= 1
  {
    var w := LastN(full, n);
    var k := |full| - |w|;
    forall i, j | 0 <= i < j < |w| ensures Older(prefix, w[i], w[j]) {
      assert w[i] == full[k + i] == Id(prefix, k + i + 1) && w[j] == full[k + j] == Id(prefix, k + j + 1);
    }
    if |w| > 1 { OlderIsAsymmetric(prefix, w[0], w[1]); }
  }

  lemma WindowOfWindow<T>(full: seq<T>, cap: nat, n: nat)
    ensures LastN(LastN(full, cap), n) == LastN(full, if n < cap then n else cap)
  {
  }

  lemma WindowOfMap<T, K>(f: T -> K, s: seq<T>, n: nat)
    ensures Map(f, LastN(s, n)) == LastN(Map(f, s), n)
  {
  }

  // The answer to a query of a trimmed log, by ids.
  lemma QueryOrder<T>(prefix: string, id: T -> string, full: seq<T>, limit: int)
    requires NumberedFrom1(prefix, Map(id, full))
    ensures var log := LastN(full, CAP);
            var answer := Map(id, LastN(log, Limit(|log|, limit)));
            && OldestFirst(prefix, answer)
            && (NewestFirst(prefix, answer) <==> |answer| <= 1)
  {
    var log := LastN(full, CAP);
    var n := Limit(|log|, limit);
    WindowOfWindow(full, CAP, n);
    var m := if n < CAP then n else CAP;
    WindowOfMap(id, full, m);
    WindowOrder(prefix, Map(id, full), m);
  }
}
