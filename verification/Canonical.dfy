/** Audit events and the pipe-separated canonical text that the hash chain covers. */
module Canonical {
  import opened Common
  import opened Timestamps

  datatype AuditEvent = AuditEvent(
    id: Guid,
    tenantId: Guid,
    category: string,
    action: string,
    entityType: string,
    entityId: string,
    payloadHash: Option<string>,
    createdAt: Instant,
    actorType: Option<string>,
    actorId: Option<string>,
    jti: Option<string>,
    metadata: Option<string>)

  /** The text of a SHA-256 value: 64 upper-case hexadecimal digits. */
  predicate IsHashText(s: string) {
    |s| == 64 && forall i | 0 <= i < |s| :: '0' <= s[i] <= '9' || 'A' <= s[i] <= 'F'
  }

  type HashText = s: string | IsHashText(s) witness seq(64, _ => '0')

  /** A stored hash: the start of every chain, or a SHA-256 value. */
  datatype Digest = Genesis | Sha256(hex: HashText) {
    function Text(): string {
      if Genesis? then "GENESIS" else hex
    }
  }

  lemma DigestText(d: Digest, d': Digest)
    ensures PipeFree(d.Text()) && (d.Text() == d'.Text() ==> d == d')
  {
    assert |d.Text()| == if d.Genesis? then 7 else 64;
    assert |d'.Text()| == if d'.Genesis? then 7 else 64;
  }

  function OrEmpty(s: Option<string>): string {
    if s.Some? then s.value else ""
  }

  /** string.Join('|', parts). */
  function Join(parts: seq<string>): string
    requires parts != []
  {
    if |parts| == 1 then parts[0] else parts[0] + ("|" + Join(parts[1..]))
  }

  const METADATA := 8

  function Columns(e: AuditEvent, prev: Digest): (c: seq<string>)
    ensures |c| == 10
  {
    [prev.Text(), e.tenantId, e.category, e.action, e.entityType, e.entityId,
     OrEmpty(e.jti), Stamp(e.createdAt), OrEmpty(e.metadata), OrEmpty(e.payloadHash)]
  }

  function Canonicalize(e: AuditEvent, prev: Digest): string {
    Join(Columns(e, prev))
  }

  function Then(column: string, rest: string): string {
    column + ("|" + rest)
  }

  lemma JoinFrom(c: seq<string>, k: nat)
    requires k + 1 < |c|
    ensures Join(c[k..]) == Then(c[k], Join(c[k + 1..]))
  {
    assert c[k..][1..] == c[k + 1..];
  }

  lemma JoinTen(c: seq<string>)
    requires |c| == 10
    ensures Join(c)
         == Then(c[0], Then(c[1], Then(c[2], Then(c[3], Then(c[4], Then(c[5], Then(c[6], Then(c[7], Then(c[8], c[9])))))))))
  {
    assert c[0..] == c && Join(c[9..]) == c[9];
    hide Join, Then;
    forall k | 0 <= k < 9 ensures Join(c[k..]) == Then(c[k], Join(c[k + 1..])) {
      JoinFrom(c, k);
    }
  }

  /** The order of the columns, and what stands for one that is absent. */
  lemma CanonicalSpells(e: AuditEvent, prev: Digest)
    ensures Canonicalize(e, prev)
         == Then(if prev == Genesis then "GENESIS" else prev.hex, Then(e.tenantId, Then(e.category, Then(e.action, Then(e.entityType,
              Then(e.entityId, Then(if e.jti.Some? then e.jti.value else "", Then(Stamp(e.createdAt),
                Then(if e.metadata.Some? then e.metadata.value else "",
                  if e.payloadHash.Some? then e.payloadHash.value else "")))))))))
  {
    hide Join, Then, Stamp;
    JoinTen(Columns(e, prev));
  }

  predicate PipeFree(s: string) {
    '|' !in s
  }

  /** The text before the first pipe is determined by the whole. */
  lemma PeelFirst(a: string, x: string, b: string, y: string)
    requires PipeFree(a) && PipeFree(b) && a + ("|" + x) == b + ("|" + y)
    ensures a == b && x == y
  {
    var s, t := a + ("|" + x), b + ("|" + y);
    assert s[|a|] == '|' && t[|b|] == '|';
    assert |a| == |b| by {
      assert forall i | 0 <= i < |a| :: a[i] in a && s[i] == a[i];
      assert forall i | 0 <= i < |b| :: b[i] in b && t[i] == b[i];
    }
    SplitAtLength(a, "|" + x, b, "|" + y);
    SplitAtLength("|", x, "|", y);
  }

  /** The text after the last pipe is determined by the whole. */
  lemma PeelLast(x: string, a: string, y: string, b: string)
    requires PipeFree(a) && PipeFree(b) && x + ("|" + a) == y + ("|" + b)
    ensures x == y && a == b
  {
    var s, t := x + ("|" + a), y + ("|" + b);
    assert s[|x|] == '|' && t[|y|] == '|';
    assert |x| == |y| by {
      assert forall i | |x| < i < |s| :: s[i] == a[i - |x| - 1] && s[i] in a;
      assert forall i | |y| < i < |t| :: t[i] == b[i - |y| - 1] && t[i] in b;
    }
    SplitAtLength(x, "|" + a, y, "|" + b);
    SplitAtLength("|", a, "|", b);
  }

  lemma {:induction false} JoinSnoc(parts: seq<string>)
    requires |parts| > 1
    ensures Join(parts) == Join(parts[..|parts| - 1]) + ("|" + parts[|parts| - 1])
  {
    var n := |parts| - 1;
    if n == 1 {
      assert parts[1..] == [parts[1]];
    } else {
      JoinSnoc(parts[1..]);
      assert parts[1..][..n - 1] == parts[..n][1..];
      var mid := Join(parts[1..][..n - 1]);
      assert parts[0] + ("|" + (mid + ("|" + parts[n]))) == (parts[0] + ("|" + mid)) + ("|" + parts[n]);
    }
  }

  /** Joining is injective on lists of one length in which only position k may hold pipes. */
  lemma {:induction false} JoinInjective(p: seq<string>, q: seq<string>, k: nat)
    requires |p| == |q| > k
    requires forall i | 0 <= i < |p| && i != k :: PipeFree(p[i]) && PipeFree(q[i])
    requires Join(p) == Join(q)
    ensures p == q
    decreases |p|
  {
    var n := |p| - 1;
    if n == 0 {
    } else if k > 0 {
      PeelFirst(p[0], Join(p[1..]), q[0], Join(q[1..]));
      JoinInjective(p[1..], q[1..], k - 1);
      assert p == [p[0]] + p[1..] && q == [q[0]] + q[1..];
    } else {
      JoinSnoc(p);
      JoinSnoc(q);
      PeelLast(Join(p[..n]), p[n], Join(q[..n]), q[n]);
      JoinInjective(p[..n], q[..n], 0);
      assert p == p[..n] + [p[n]] && q == q[..n] + [q[n]];
    }
  }

  /** Every column except Metadata is free of pipes. */
  predicate Unambiguous(e: AuditEvent) {
    && PipeFree(e.category) && PipeFree(e.action) && PipeFree(e.entityType) && PipeFree(e.entityId)
    && PipeFree(OrEmpty(e.jti)) && PipeFree(OrEmpty(e.payloadHash))
  }

  /** Agreement on every hashed field, where an absent optional field reads as empty. */
  predicate SameHashedFields(e: AuditEvent, f: AuditEvent) {
    && e.tenantId == f.tenantId && e.category == f.category && e.action == f.action
    && e.entityType == f.entityType && e.entityId == f.entityId && e.createdAt == f.createdAt
    && OrEmpty(e.jti) == OrEmpty(f.jti) && OrEmpty(e.metadata) == OrEmpty(f.metadata)
    && OrEmpty(e.payloadHash) == OrEmpty(f.payloadHash)
  }

  lemma SameColumns(e: AuditEvent, prev: Digest, f: AuditEvent, prev': Digest)
    ensures Columns(e, prev) == Columns(f, prev') <==> prev == prev' && SameHashedFields(e, f)
  {
    var p, q := Columns(e, prev), Columns(f, prev');
    DigestText(prev, prev');
    if p == q {
      assert p[0] == q[0] && p[1] == q[1] && p[2] == q[2] && p[3] == q[3] && p[4] == q[4];
      assert p[5] == q[5] && p[6] == q[6] && p[7] == q[7] && p[8] == q[8] && p[9] == q[9];
      StampInjective(e.createdAt, f.createdAt);
    }
  }

  /** All ten joined fields can be recovered from the canonical text. */
  lemma CanonicalInjective(e: AuditEvent, prev: Digest, f: AuditEvent, prev': Digest)
    requires Unambiguous(e) && Unambiguous(f)
    ensures Canonicalize(e, prev) == Canonicalize(f, prev') <==> prev == prev' && SameHashedFields(e, f)
  {
    SameColumns(e, prev, f, prev');
    if Canonicalize(e, prev) == Canonicalize(f, prev') {
      UnambiguousColumns(e, prev);
      UnambiguousColumns(f, prev');
      hide Columns;
      JoinInjective(Columns(e, prev), Columns(f, prev'), METADATA);
    }
  }

  lemma UnambiguousColumns(e: AuditEvent, prev: Digest)
    requires Unambiguous(e)
    ensures forall i | 0 <= i < 10 && i != METADATA :: PipeFree(Columns(e, prev)[i])
  {
    DigestText(prev, prev);
  }

  /** The previous hash and the tenant are always recoverable, whatever the other columns hold. */
  lemma CanonicalHead(e: AuditEvent, prev: Digest, f: AuditEvent, prev': Digest)
    requires Canonicalize(e, prev) == Canonicalize(f, prev')
    ensures prev == prev' && e.tenantId == f.tenantId
  {
    var p, q := Columns(e, prev), Columns(f, prev');
    DigestText(prev, prev');
    DigestText(prev', prev);
    PeelFirst(p[0], Join(p[1..]), q[0], Join(q[1..]));
    PeelFirst(p[1], Join(p[1..][1..]), q[1], Join(q[1..][1..]));
  }

  // ----- Which events their text determines -----

  function Pipes(s: string): nat {
    if s == [] then 0 else (if s[0] == '|' then 1 else 0) + Pipes(s[1..])
  }

  lemma {:induction false} PipesConcat(a: string, b: string)
    ensures Pipes(a + b) == Pipes(a) + Pipes(b)
  {
    if a == [] {
      assert a + b == b;
    } else {
      assert (a + b)[1..] == a[1..] + b;
      PipesConcat(a[1..], b);
    }
  }

  lemma {:induction false} NoPipes(s: string)
    ensures PipeFree(s) <==> Pipes(s) == 0
  {
    if s != [] {
      NoPipes(s[1..]);
      assert s == [s[0]] + s[1..];
    }
  }

  function PipesIn(parts: seq<string>): nat {
    if parts == [] then 0 else Pipes(parts[0]) + PipesIn(parts[1..])
  }

  lemma {:induction false} PipesOfJoin(parts: seq<string>)
    requires parts != []
    ensures Pipes(Join(parts)) == PipesIn(parts) + |parts| - 1
  {
    if |parts| > 1 {
      PipesOfJoin(parts[1..]);
      PipesConcat(parts[0], "|" + Join(parts[1..]));
      PipesConcat("|", Join(parts[1..]));
    } else {
      assert parts[1..] == [];
    }
  }

  lemma {:induction false} NoPipesIn(parts: seq<string>)
    ensures PipesIn(parts) == 0 <==> forall i | 0 <= i < |parts| :: PipeFree(parts[i])
  {
    if parts != [] {
      NoPipesIn(parts[1..]);
      NoPipes(parts[0]);
      assert forall i | 0 <= i < |parts| :: parts[i] == if i == 0 then parts[0] else parts[1..][i - 1];
    }
  }

  /** Lists of one length that join alike hold as many pipes, so if one holds none, they are equal. */
  lemma JoinDetermines(p: seq<string>, q: seq<string>)
    requires |p| == |q| > 0 && Join(p) == Join(q) && forall i | 0 <= i < |p| :: PipeFree(p[i])
    ensures p == q
  {
    PipesOfJoin(p);
    PipesOfJoin(q);
    NoPipesIn(p);
    NoPipesIn(q);
    JoinInjective(p, q, 0);
  }

  /** No hashed column, Metadata included, holds a pipe. */
  predicate Clear(e: AuditEvent) {
    Unambiguous(e) && PipeFree(OrEmpty(e.metadata))
  }

  lemma ColumnsClear(e: AuditEvent, prev: Digest)
    requires Clear(e)
    ensures forall i | 0 <= i < 10 :: PipeFree(Columns(e, prev)[i])
  {
    UnambiguousColumns(e, prev);
  }

  /** f behind q has e's text behind prev only if it is the same record. */
  predicate Determined(e: AuditEvent, prev: Digest, f: AuditEvent, q: Digest) {
    Canonicalize(f, q) == Canonicalize(e, prev) ==> q == prev && SameHashedFields(f, e)
  }

  /** The text determines the record: no other previous hash and no other hashed fields give it. */
  ghost predicate Determines(e: AuditEvent, prev: Digest) {
    forall f, q :: Determined(e, prev, f, q)
  }

  lemma ClearDetermines(e: AuditEvent, prev: Digest, f: AuditEvent, q: Digest)
    requires Clear(e)
    ensures Determined(e, prev, f, q)
  {
    if Canonicalize(f, q) == Canonicalize(e, prev) {
      ColumnsClear(e, prev);
      JoinDetermines(Columns(e, prev), Columns(f, q));
      SameColumns(f, q, e, prev);
    }
  }

  /** Two neighbouring columns may trade a pipe without changing the joined text. */
  lemma {:induction false} JoinShift(p: seq<string>, q: seq<string>, i: nat)
    requires |p| == |q| && i + 1 < |p|
    requires forall k | 0 <= k < |p| && k != i && k != i + 1 :: p[k] == q[k]
    requires p[i] + ("|" + p[i + 1]) == q[i] + ("|" + q[i + 1])
    ensures Join(p) == Join(q)
    decreases i
  {
    if i > 0 {
      JoinShift(p[1..], q[1..], i - 1);
    } else {
      JoinTwo(p);
      JoinTwo(q);
      assert p[2..] == q[2..];
    }
  }

  function Rest(parts: seq<string>): string {
    if parts == [] then "" else "|" + Join(parts)
  }

  lemma JoinTwo(parts: seq<string>)
    requires |parts| >= 2
    ensures Join(parts) == (parts[0] + ("|" + parts[1])) + Rest(parts[2..])
  {
    assert parts[1..][1..] == parts[2..];
    if |parts| > 2 {
      RegroupText(parts[0], parts[1], Rest(parts[2..]));
    }
  }

  lemma RegroupText(a: string, b: string, c: string)
    ensures a + ("|" + (b + c)) == (a + ("|" + b)) + c
  {
  }

  /** The text up to the first pipe, and the text after it. */
  function Cut(s: string): (r: (string, string))
    requires !PipeFree(s)
    ensures s == r.0 + ("|" + r.1)
  {
    if s[0] == '|' then
      assert s == "" + ("|" + s[1..]);
      ("", s[1..])
    else
      assert s == [s[0]] + s[1..];
      var r := Cut(s[1..]);
      assert s == ([s[0]] + r.0) + ("|" + r.1);
      ([s[0]] + r.0, r.1)
  }

  /** A pipe moved out of the first column into the second. */
  function Right(a: string, b: string): (string, string)
    requires !PipeFree(a)
  {
    (Cut(a).0, Cut(a).1 + ("|" + b))
  }

  /** A pipe moved out of the second column into the first. */
  function Left(a: string, b: string): (string, string)
    requires !PipeFree(b)
  {
    (a + ("|" + Cut(b).0), Cut(b).1)
  }

  lemma ShiftedText(a: string, b: string)
    ensures !PipeFree(a) ==> Right(a, b).0 + ("|" + Right(a, b).1) == a + ("|" + b) && |Right(a, b).0| < |a|
    ensures !PipeFree(b) ==> Left(a, b).0 + ("|" + Left(a, b).1) == a + ("|" + b) && |Left(a, b).1| < |b|
  {
    if !PipeFree(a) {
      RegroupText(Cut(a).0, Cut(a).1, "|" + b);
    }
    if !PipeFree(b) {
      RegroupText(a, Cut(b).0, "|" + Cut(b).1);
    }
  }

  /** The event with one pipe moved to a neighbouring column. */
  function Shifted(e: AuditEvent): AuditEvent
    requires !Clear(e)
  {
    if !PipeFree(e.category) then e.(category := Right(e.category, e.action).0, action := Right(e.category, e.action).1)
    else if !PipeFree(e.action) then e.(action := Right(e.action, e.entityType).0, entityType := Right(e.action, e.entityType).1)
    else if !PipeFree(e.entityType) then
      e.(entityType := Right(e.entityType, e.entityId).0, entityId := Right(e.entityType, e.entityId).1)
    else if !PipeFree(e.entityId) then
      var r := Right(e.entityId, OrEmpty(e.jti)); e.(entityId := r.0, jti := Some(r.1))
    else if !PipeFree(OrEmpty(e.jti)) then
      var r := Left(e.entityId, OrEmpty(e.jti)); e.(entityId := r.0, jti := Some(r.1))
    else if !PipeFree(OrEmpty(e.metadata)) then
      var r := Right(OrEmpty(e.metadata), OrEmpty(e.payloadHash)); e.(metadata := Some(r.0), payloadHash := Some(r.1))
    else
      var r := Left(OrEmpty(e.metadata), OrEmpty(e.payloadHash)); e.(metadata := Some(r.0), payloadHash := Some(r.1))
  }

  /** The first of the two columns that trade the pipe. */
  function ShiftedAt(e: AuditEvent): (i: nat)
    ensures i < 9
  {
    if !PipeFree(e.category) then 2 else if !PipeFree(e.action) then 3 else if !PipeFree(e.entityType) then 4
    else if !PipeFree(e.entityId) || !PipeFree(OrEmpty(e.jti)) then 5 else 8
  }

  lemma ShiftedColumns(e: AuditEvent, prev: Digest)
    requires !Clear(e)
    ensures var p, q, i := Columns(e, prev), Columns(Shifted(e), prev), ShiftedAt(e);
            && (forall k | 0 <= k < 10 && k != i && k != i + 1 :: p[k] == q[k])
            && p[i] + ("|" + p[i + 1]) == q[i] + ("|" + q[i + 1])
    ensures !SameHashedFields(Shifted(e), e)
    ensures Shifted(e).id == e.id && Shifted(e).tenantId == e.tenantId && Shifted(e).createdAt == e.createdAt
  {
    hide PipeFree, Left, Right, Cut, Stamp;
    ShiftedText(e.category, e.action);
    ShiftedText(e.action, e.entityType);
    ShiftedText(e.entityType, e.entityId);
    ShiftedText(e.entityId, OrEmpty(e.jti));
    ShiftedText(OrEmpty(e.metadata), OrEmpty(e.payloadHash));
  }

  /** An event with a pipe in some hashed column shares its text, behind every previous hash, with
      an event of other fields: the pipe moved to a neighbouring column. */
  lemma PipeShiftGoesUnseen(e: AuditEvent, prev: Digest)
    requires !Clear(e)
    ensures Canonicalize(Shifted(e), prev) == Canonicalize(e, prev) && !SameHashedFields(Shifted(e), e)
    ensures Shifted(e).id == e.id && Shifted(e).tenantId == e.tenantId && Shifted(e).createdAt == e.createdAt
  {
    hide Clear, Shifted, ShiftedAt, Columns, Join, SameHashedFields;
    ShiftedColumns(e, prev);
    JoinShift(Columns(e, prev), Columns(Shifted(e), prev), ShiftedAt(e));
  }

  /** The text determines the event exactly if none of its hashed columns holds a pipe. What the
      other event holds plays no part. */
  lemma CanonicalDetermines(e: AuditEvent, prev: Digest)
    ensures Determines(e, prev) <==> Clear(e)
  {
    if Clear(e) {
      forall f, q ensures Determined(e, prev, f, q) { ClearDetermines(e, prev, f, q); }
    } else {
      PipeShiftGoesUnseen(e, prev);
      assert !Determined(e, prev, Shifted(e), prev);
    }
  }

  /** The shift that a client can reach, because Metadata carries the correlation id of its request:
      the part after the pipe passes for the payload hash. */
  lemma MetadataShiftGoesUnseen(e: AuditEvent, prev: Digest, x: string, y: string)
    requires e.metadata == Some(x + ("|" + y)) && e.payloadHash == None
    ensures var f := e.(metadata := Some(x), payloadHash := Some(y + "|"));
            !SameHashedFields(e, f) && Canonicalize(e, prev) == Canonicalize(f, prev)
  {
    var f := e.(metadata := Some(x), payloadHash := Some(y + "|"));
    assert |x + ("|" + y)| != |x|;
    assert (x + ("|" + y)) + ("|" + "") == x + ("|" + (y + "|"));
    JoinShift(Columns(e, prev), Columns(f, prev), METADATA);
  }
}
