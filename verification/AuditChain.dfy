/**
  The audit hash chain and its verifier. A row is hashed over its own fields and the hash of
  its predecessor. The verifier rebuilds the order of the rows from those links alone.

  The digest is a parameter. What is assumed of it is stated where it is used: it is never the
  empty text, and no two different inputs among the rows at hand collide.
 */
module AuditChain {
  import opened Common
  import opened CanonicalJson

  datatype Row = Row(content: Content, hash: Option<string>, previousHash: Option<string>)

  datatype Verdict =
    | Valid
    | Forked(id: string, previousHash: Option<string>)
    | HashMismatch(id: string)
    | Disconnected(missing: nat)

  /** The hash of a row from its own fields and the hash of the row before it. */
  type RowHash = (Content, Option<string>) -> string

  function HashInput(c: Content, previousHash: Option<string>): string {
    Canonicalize(c) + ("|" + previousHash.GetOr(""))
  }

  /** The row hash the repository uses, for a digest `sha`. */
  function ComputeHash(sha: string -> string): RowHash {
    (c, previousHash) => sha(HashInput(c, previousHash))
  }

  /** The rows that take part in the chain: rows older than the chain carry no hash. */
  function Hashed(table: seq<Row>): (rows: seq<Row>)
    ensures forall r :: r in rows <==> r in table && r.hash.Some?
    ensures |rows| <= |table|
  {
    if table == [] then []
    else (if table[0].hash.Some? then [table[0]] else []) + Hashed(table[1..])
  }

  ghost predicate NeverEmpty(h: RowHash) {
    forall c, p :: h(c, p) != ""
  }

  /** The two rows are hashed from the same fields and the same predecessor text. */
  predicate SameInput(r: Row, q: Row) {
    r.content == q.content && r.previousHash.GetOr("") == q.previousHash.GetOr("")
  }

  ghost predicate Collide(h: RowHash, r: Row, q: Row) {
    h(r.content, r.previousHash) == h(q.content, q.previousHash) && !SameInput(r, q)
  }

  ghost predicate CollisionFree(h: RowHash, rows: seq<Row>) {
    forall r, q {:trigger Collide(h, r, q)} :: r in rows && q in rows ==> !Collide(h, r, q)
  }

  ghost predicate UniqueIds(rows: seq<Row>) {
    forall i, j :: 0 <= i < j < |rows| ==> rows[i].content.id != rows[j].content.id
  }

  ghost predicate Distinct<T>(s: seq<T>) {
    forall i, j :: 0 <= i < j < |s| ==> s[i] != s[j]
  }

  ghost predicate Genuine(h: RowHash, r: Row) {
    r.hash == Some(h(r.content, r.previousHash))
  }

  function LastHash(s: seq<Row>): Option<string> {
    if s == [] then None else s[|s| - 1].hash
  }

  ghost predicate Linked(h: RowHash, s: seq<Row>, i: nat)
    requires i < |s|
  {
    Genuine(h, s[i]) && s[i].previousHash == if i == 0 then None else s[i - 1].hash
  }

  /** One chain from a null predecessor, every stored hash being the recomputed one. */
  ghost predicate IsChain(h: RowHash, s: seq<Row>) {
    forall i {:trigger Linked(h, s, i)} :: 0 <= i < |s| ==> Linked(h, s, i)
  }

  ghost predicate IsOrderingOf(s: seq<Row>, rows: seq<Row>) {
    multiset(s) == multiset(rows)
  }

  /** The rows can be ordered into one chain; nothing here depends on the order they come in. */
  ghost predicate Chainable(h: RowHash, rows: seq<Row>) {
    exists s :: IsOrderingOf(s, rows) && IsChain(h, s)
  }

  ghost predicate NoFork(rows: seq<Row>) {
    forall i, j :: 0 <= i < j < |rows| ==> rows[i].previousHash != rows[j].previousHash
  }

  ghost predicate Within(s: seq<Row>, rows: seq<Row>) {
    forall r :: r in s ==> r in rows
  }

  // ---- Rows and their hashes ----

  /** The digest inherits collision-freedom to whole rows: no two rows share their hashed text. */
  lemma RowsCollideOnlyIfDigestsDo(sha: string -> string, rows: seq<Row>)
    requires forall r, q :: r in rows && q in rows ==>
               sha(HashInput(r.content, r.previousHash)) == sha(HashInput(q.content, q.previousHash)) ==>
                 HashInput(r.content, r.previousHash) == HashInput(q.content, q.previousHash)
    ensures CollisionFree(ComputeHash(sha), rows)
  {
    forall r, q | r in rows && q in rows
      ensures !Collide(ComputeHash(sha), r, q)
    {
      if HashInput(r.content, r.previousHash) == HashInput(q.content, q.previousHash) {
        InputFixesRow(r, q);
      }
    }
  }

  lemma InputFixesRow(r: Row, q: Row)
    requires HashInput(r.content, r.previousHash) == HashInput(q.content, q.previousHash)
    ensures SameInput(r, q)
  {
    CanonicalizeUnique(r.content, q.content, "|" + r.previousHash.GetOr(""), "|" + q.previousHash.GetOr(""));
    DropCommonPrefix("|", r.previousHash.GetOr(""), q.previousHash.GetOr(""));
  }

  lemma BarBehind(object_: string, body: string, link: string)
    requires object_ == "{" + (body + "}")
    ensures object_ + ("|" + link) == "{" + (body + ("}|" + link))
  {
    Regroup("{", body + "}", "|" + link);
    Regroup(body, "}", "|" + link);
    assert "}" + ("|" + link) == "}|" + link;
  }

  /** What is hashed of a row of plain text: the object, a bar, and the hash of the row before, if there is one. */
  lemma HashedText(sha: string -> string, c: Content, previousHash: Option<string>, body: string, link: string)
    requires PlainRow(c) && body == JoinComma(Pieces(Fields(c)))
    requires previousHash == Some(link) || (previousHash == None && link == "")
    ensures ComputeHash(sha)(c, previousHash) == sha("{" + (body + ("}|" + link)))
  {
    PlainRowText(c, Fields(c));
    BarBehind(Canonicalize(c), body, link);
    assert HashInput(c, previousHash) == "{" + (body + ("}|" + link));
  }

  /** Two genuine rows of one table with the same hash are the same row. */
  lemma SameHashSameRow(h: RowHash, rows: seq<Row>, r: Row, q: Row)
    requires UniqueIds(rows) && CollisionFree(h, rows)
    requires r in rows && q in rows && Genuine(h, r) && Genuine(h, q) && r.hash == q.hash
    ensures r == q
  {
    assert !Collide(h, r, q);
    var i := IndexOf(rows, r);
    var j := IndexOf(rows, q);
    assert i == j;
  }

  lemma ChainPrefix(h: RowHash, s: seq<Row>, k: nat)
    requires IsChain(h, s) && k <= |s|
    ensures IsChain(h, s[..k])
  {
    forall i | 0 <= i < k
      ensures Linked(h, s[..k], i)
    {
      assert Linked(h, s, i);
    }
  }

  lemma ChainSnoc(h: RowHash, s: seq<Row>, r: Row)
    requires IsChain(h, s) && Genuine(h, r) && r.previousHash == LastHash(s)
    ensures IsChain(h, s + [r])
  {
    var t := s + [r];
    forall i | 0 <= i < |t|
      ensures Linked(h, t, i)
    {
      assert i < |s| ==> Linked(h, s, i);
    }
  }

  lemma ChainLink(h: RowHash, s: seq<Row>, i: nat)
    requires IsChain(h, s) && i < |s|
    ensures Genuine(h, s[i])
    ensures s[i].previousHash == if i == 0 then None else s[i - 1].hash
  {
    assert Linked(h, s, i);
  }

  // ---- Counting rows ----

  lemma IndexOf<T>(s: seq<T>, x: T) returns (i: nat)
    requires x in s
    ensures i < |s| && s[i] == x
  {
    i :| 0 <= i < |s| && s[i] == x;
  }

  lemma {:induction false} DistinctOnce<T>(s: seq<T>, x: T)
    requires Distinct(s)
    ensures multiset(s)[x] == if x in s then 1 else 0
  {
    if s != [] {
      assert s == [s[0]] + s[1..];
      assert multiset(s) == multiset{s[0]} + multiset(s[1..]);
      DistinctOnce(s[1..], x);
    }
  }

  /** A duplicate-free selection is never longer, and if as long, it is the whole. */
  lemma SelectionSize(s: seq<Row>, rows: seq<Row>)
    requires Distinct(s) && Within(s, rows)
    ensures |s| <= |rows|
    ensures |s| == |rows| ==> IsOrderingOf(s, rows)
    ensures Distinct(rows) && IsOrderingOf(s, rows) ==> |s| == |rows|
  {
    forall x
      ensures multiset(s)[x] <= multiset(rows)[x]
    {
      DistinctOnce(s, x);
    }
    var m, n := multiset(s), multiset(rows);
    assert m <= n;
    assert n == m + (n - m);
    assert |n| == |m| + |n - m|;
  }

  lemma OrderingFacts(s: seq<Row>, rows: seq<Row>)
    requires UniqueIds(rows) && IsOrderingOf(s, rows)
    ensures Distinct(s) && |s| == |rows|
    ensures forall r :: r in s <==> r in rows
  {
    assert |multiset(s)| == |multiset(rows)|;
    forall r
      ensures r in s <==> r in rows
    {
      assert r in s <==> r in multiset(s);
      assert r in rows <==> r in multiset(rows);
    }
    forall i, j | 0 <= i < j < |s|
      ensures s[i] != s[j]
    {
      if s[i] == s[j] {
        DistinctOnce(rows, s[i]);
        MultisetTwice(s, i, j);
      }
    }
  }

  lemma MultisetTwice<T>(s: seq<T>, i: nat, j: nat)
    requires i < j < |s| && s[i] == s[j]
    ensures multiset(s)[s[i]] >= 2
  {
    assert s == s[..j] + s[j..];
    assert multiset(s) == multiset(s[..j]) + multiset(s[j..]);
    assert s[i] == s[..j][i] && s[i] == s[j..][0];
    assert s[i] in s[..j] && s[i] in s[j..];
  }

  // ---- What a chain ordering rules out ----

  lemma ChainHasNoFork(h: RowHash, s: seq<Row>, i: nat, j: nat)
    requires UniqueIds(s) && CollisionFree(h, s) && IsChain(h, s)
    requires i < |s| && j < |s| && s[i].previousHash == s[j].previousHash
    ensures i == j
  {
    ChainLink(h, s, i);
    ChainLink(h, s, j);
    if i > 0 { ChainLink(h, s, i - 1); }
    if j > 0 { ChainLink(h, s, j - 1); }
    if i > 0 && j > 0 {
      SameHashSameRow(h, s, s[i - 1], s[j - 1]);
    }
  }

  lemma TransferHypotheses(h: RowHash, s: seq<Row>, rows: seq<Row>)
    requires UniqueIds(rows) && CollisionFree(h, rows) && IsOrderingOf(s, rows)
    ensures UniqueIds(s) && CollisionFree(h, s)
  {
    OrderingFacts(s, rows);
    forall i, j | 0 <= i < j < |s|
      ensures s[i].content.id != s[j].content.id
    {
      assert s[i] in rows && s[j] in rows;
      var m := IndexOf(rows, s[i]);
      var n := IndexOf(rows, s[j]);
      assert m != n;
    }
  }

  /** A walk along the links inside a table follows the one chain ordering, if there is one. */
  lemma {:induction false} WalkFollowsChain(h: RowHash, s: seq<Row>, path: seq<Row>)
    requires UniqueIds(s) && CollisionFree(h, s)
    requires IsChain(h, s) && IsChain(h, path) && Within(path, s)
    ensures path <= s
  {
    if path != [] {
      var n := |path| - 1;
      ChainPrefix(h, path, n);
      WalkFollowsChain(h, s, path[..n]);
      assert path[..n] == s[..n];
      var i := IndexOf(s, path[n]);
      ChainLink(h, path, n);
      ChainLink(h, s, i);
      if n > 0 {
        assert path[n - 1] == s[n - 1];
        ChainLink(h, s, n - 1);
        if i > 0 {
          ChainLink(h, s, i - 1);
          SameHashSameRow(h, s, s[i - 1], s[n - 1]);
        }
      } else if i > 0 {
        ChainLink(h, s, i - 1);
      }
      assert i == n;
      assert path == path[..n] + [path[n]];
    }
  }

  // ---- The verifier ----

  /** The row the walk has reached is a new one: otherwise two visited rows would collide. */
  lemma WalkNeverReturns(h: RowHash, rows: seq<Row>, path: seq<Row>, r: Row)
    requires UniqueIds(rows) && CollisionFree(h, rows)
    requires IsChain(h, path) && Within(path, rows) && Distinct(path)
    requires r in rows && r.previousHash == LastHash(path)
    ensures Distinct(path + [r])
  {
    if r in path {
      var k := IndexOf(path, r);
      var n := |path| - 1;
      ChainLink(h, path, k);
      ChainLink(h, path, n);
      if k > 0 {
        ChainLink(h, path, k - 1);
        SameHashSameRow(h, rows, path[k - 1], path[n]);
      }
    }
  }

  /** How far the walk gets: a chain inside the table that no row of the table continues. */
  ghost predicate StopsAt(h: RowHash, rows: seq<Row>, path: seq<Row>) {
    && IsChain(h, path) && Within(path, rows) && Distinct(path)
    && forall r :: r in rows ==> r.previousHash != LastHash(path)
  }

  /** The first row along the links whose content does not give its stored hash. */
  ghost predicate BreaksAt(h: RowHash, rows: seq<Row>, path: seq<Row>, r: Row) {
    && IsChain(h, path) && Within(path, rows) && Distinct(path)
    && r in rows && r.previousHash == LastHash(path) && !Genuine(h, r)
  }

  /** What each answer of the verifier says about the table. */
  ghost predicate Explains(verdict: Verdict, h: RowHash, rows: seq<Row>) {
    match verdict
    case Valid => Chainable(h, rows)
    case Forked(id, p) =>
      exists i, j :: 0 <= i < j < |rows| && rows[i].previousHash == rows[j].previousHash == p
                     && rows[j].content.id == id && NoFork(rows[..j])
    case HashMismatch(id) =>
      NoFork(rows) && exists path, r :: BreaksAt(h, rows, path, r) && r.content.id == id
    case Disconnected(n) =>
      NoFork(rows) && n > 0 && exists path :: StopsAt(h, rows, path) && |path| + n == |rows|
  }

  /** Every complaint is justified: such a table has no chain ordering. */
  lemma ComplaintIsSound(verdict: Verdict, h: RowHash, rows: seq<Row>)
    requires UniqueIds(rows) && CollisionFree(h, rows)
    requires Explains(verdict, h, rows) && !verdict.Valid?
    ensures !Chainable(h, rows)
  {
    forall s: seq<Row> | IsOrderingOf(s, rows)
      ensures !IsChain(h, s)
    {
      if IsChain(h, s) {
        OrderingFacts(s, rows);
        TransferHypotheses(h, s, rows);
        match verdict
        case Forked(id, p) =>
          var i, j :| 0 <= i < j < |rows| && rows[i].previousHash == rows[j].previousHash == p;
          var m := IndexOf(s, rows[i]);
          var n := IndexOf(s, rows[j]);
          ChainHasNoFork(h, s, m, n);
        case HashMismatch(id) =>
          var path, r :| BreaksAt(h, rows, path, r);
          var i := IndexOf(s, r);
          ChainLink(h, s, i);
        case Disconnected(n) =>
          var path: seq<Row> :| StopsAt(h, rows, path) && |path| + n == |rows|;
          WalkFollowsChain(h, s, path);
          ChainLink(h, s, |path|);
      }
    }
  }

  lemma HashedKeepsUniqueIds(table: seq<Row>)
    requires UniqueIds(table)
    ensures UniqueIds(Hashed(table))
  {
    if table != [] {
      HashedKeepsUniqueIds(table[1..]);
      var rest := Hashed(table[1..]);
      forall r | r in rest
        ensures r.content.id != table[0].content.id
      {
        var j := IndexOf(table[1..], r);
        assert table[j + 1] == r;
      }
    }
  }

  /** The index finds, for each predecessor hash, the one row that names it. */
  ghost predicate Indexes(index: map<Option<string>, Row>, rows: seq<Row>) {
    && (forall r :: r in rows ==> r.previousHash in index)
    && (forall p :: p in index ==> index[p] in rows && index[p].previousHash == p)
  }

  /** First pass: a second row with the same predecessor is a fork. */
  method IndexByPreviousHash(h: RowHash, rows: seq<Row>)
    returns (index: map<Option<string>, Row>, fork: Option<Verdict>)
    ensures fork.Some? ==> fork.value.Forked? && Explains(fork.value, h, rows)
    ensures fork.None? ==> NoFork(rows) && Indexes(index, rows)
  {
    index := map[];
    for n := 0 to |rows|
      invariant NoFork(rows[..n]) && Indexes(index, rows[..n])
    {
      var row := rows[n];
      if row.previousHash in index {
        ghost var i := IndexOf(rows[..n], index[row.previousHash]);
        assert rows[i].previousHash == row.previousHash;
        fork := Some(Forked(row.content.id, row.previousHash));
        return;
      }
      index := index[row.previousHash := row];
      assert rows[..n + 1] == rows[..n] + [row];
    }
    assert rows[..|rows|] == rows;
    fork := None;
  }

  function Get<K, V>(m: map<K, V>, k: K): Option<V> {
    if k in m then Some(m[k]) else None
  }

  /**
    The verifier. It ends because the rows it visits are all different, and it answers
    `Valid` exactly when the hashed rows form one chain.
   */
  method VerifyChainIntegrity(h: RowHash, table: seq<Row>) returns (verdict: Verdict)
    requires UniqueIds(table) && CollisionFree(h, Hashed(table))
    ensures verdict.Valid? <==> Chainable(h, Hashed(table))
    ensures Explains(verdict, h, Hashed(table))
  {
    var rows := Hashed(table);
    HashedKeepsUniqueIds(table);
    var byPreviousHash, fork := IndexByPreviousHash(h, rows);
    if fork.Some? {
      verdict := fork.value;
      ComplaintIsSound(verdict, h, rows);
      return;
    }

    var current := Get(byPreviousHash, None);
    var visited := 0;
    var expectedPreviousHash: Option<string> := None;
    ghost var path: seq<Row> := [];
    while current.Some?
      invariant IsChain(h, path) && Within(path, rows) && Distinct(path)
      invariant visited == |path| <= |rows| && expectedPreviousHash == LastHash(path)
      invariant current == Get(byPreviousHash, LastHash(path))
      decreases |rows| - |path|
    {
      var row := current.value;
      var expectedHash := h(row.content, expectedPreviousHash);
      if Some(expectedHash) != row.hash {
        verdict := HashMismatch(row.content.id);
        assert BreaksAt(h, rows, path, row);
        ComplaintIsSound(verdict, h, rows);
        return;
      }
      WalkNeverReturns(h, rows, path, row);
      ChainSnoc(h, path, row);
      path := path + [row];
      SelectionSize(path, rows);
      visited := visited + 1;
      expectedPreviousHash := row.hash;
      current := Get(byPreviousHash, row.hash);
    }

    if visited != |rows| {
      verdict := Disconnected(|rows| - visited);
      assert StopsAt(h, rows, path);
      ComplaintIsSound(verdict, h, rows);
      return;
    }
    SelectionSize(path, rows);
    verdict := Valid;
  }

  // ---- What the chain proves about a table ----

  /** The hash of the last row fixes the whole history. */
  lemma {:induction false} HeadFixesHistory(h: RowHash, s: seq<Row>, t: seq<Row>)
    requires NeverEmpty(h) && CollisionFree(h, s + t)
    requires IsChain(h, s) && IsChain(h, t) && LastHash(s) == LastHash(t)
    ensures s == t
  {
    if s != [] && t != [] {
      var m, n := |s| - 1, |t| - 1;
      ChainLink(h, s, m);
      ChainLink(h, t, n);
      assert s[m] in s + t && t[n] in s + t;
      if m > 0 { ChainLink(h, s, m - 1); }
      if n > 0 { ChainLink(h, t, n - 1); }
      assert !Collide(h, s[m], t[n]);
      ChainPrefix(h, s, m);
      ChainPrefix(h, t, n);
      assert forall r :: r in s[..m] + t[..n] ==> r in s + t;
      HeadFixesHistory(h, s[..m], t[..n]);
      assert s == s[..m] + [s[m]] && t == t[..n] + [t[n]];
    } else {
      if s != [] { ChainLink(h, s, |s| - 1); }
      if t != [] { ChainLink(h, t, |t| - 1); }
    }
  }

  /** Two tables that verify and end in the same hash hold exactly the same rows. */
  lemma SameHeadSameTable(h: RowHash, rows: seq<Row>, rows': seq<Row>, s: seq<Row>, t: seq<Row>)
    requires NeverEmpty(h) && CollisionFree(h, rows + rows')
    requires IsOrderingOf(s, rows) && IsChain(h, s) && IsOrderingOf(t, rows') && IsChain(h, t)
    requires LastHash(s) == LastHash(t)
    ensures IsOrderingOf(rows, rows')
  {
    forall r | r in s + t
      ensures r in rows + rows'
    {
      assert r in multiset(s) || r in multiset(t);
    }
    HeadFixesHistory(h, s, t);
  }

  /** The order in which the rows are returned has no influence on the verdict. */
  lemma VerdictIgnoresOrder(h: RowHash, rows: seq<Row>, shuffled: seq<Row>)
    requires IsOrderingOf(rows, shuffled)
    ensures Chainable(h, rows) <==> Chainable(h, shuffled)
  {
    if Chainable(h, rows) {
      var s :| IsOrderingOf(s, rows) && IsChain(h, s);
      assert IsOrderingOf(s, shuffled);
    }
    if Chainable(h, shuffled) {
      var s :| IsOrderingOf(s, shuffled) && IsChain(h, s);
      assert IsOrderingOf(s, rows);
    }
  }

  /** What is left after rows were removed verifies exactly when a suffix was removed. */
  lemma SurvivorsVerifyIffPrefix(h: RowHash, s: seq<Row>, left: seq<Row>)
    requires UniqueIds(s) && CollisionFree(h, s) && IsChain(h, s)
    requires Within(left, s) && Distinct(left)
    ensures Chainable(h, left) <==> exists k :: 0 <= k <= |s| && IsOrderingOf(s[..k], left)
  {
    if Chainable(h, left) {
      var c :| IsOrderingOf(c, left) && IsChain(h, c);
      forall r | r in c
        ensures r in s
      {
        assert r in multiset(c);
      }
      WalkFollowsChain(h, s, c);
      assert s[..|c|] == c;
    }
    if k :| 0 <= k <= |s| && IsOrderingOf(s[..k], left) {
      ChainPrefix(h, s, k);
    }
  }

  /** A table with rows added verifies exactly when they continue the chain at its end. */
  lemma AdditionsVerifyIffAppended(h: RowHash, s: seq<Row>, grown: seq<Row>)
    requires UniqueIds(grown) && CollisionFree(h, grown) && IsChain(h, s) && Within(s, grown)
    ensures Chainable(h, grown)
       <==> exists tail :: IsOrderingOf(s + tail, grown) && IsChain(h, s + tail)
  {
    if Chainable(h, grown) {
      var c :| IsOrderingOf(c, grown) && IsChain(h, c);
      OrderingFacts(c, grown);
      TransferHypotheses(h, c, grown);
      WalkFollowsChain(h, c, s);
      assert c == s + c[|s|..];
    }
  }

  /** The content of any rows is changed while both hash columns are kept. */
  ghost predicate ContentTampered(rows: seq<Row>, rows': seq<Row>) {
    && |rows| == |rows'|
    && (forall i :: 0 <= i < |rows| ==> rows[i].hash == rows'[i].hash && rows[i].previousHash == rows'[i].previousHash)
    && exists i :: 0 <= i < |rows| && rows[i].content != rows'[i].content
  }

  /** Such a change never verifies, however many rows it touches. */
  lemma TamperingIsDetected(h: RowHash, rows: seq<Row>, rows': seq<Row>)
    requires CollisionFree(h, rows + rows')
    requires Chainable(h, rows) && ContentTampered(rows, rows')
    ensures !Chainable(h, rows')
  {
    var i :| 0 <= i < |rows| && rows[i].content != rows'[i].content;
    if Chainable(h, rows') {
      GenuineIfChainable(h, rows, i);
      GenuineIfChainable(h, rows', i);
      assert Collide(h, rows[i], rows'[i]);
    }
  }

  lemma GenuineIfChainable(h: RowHash, rows: seq<Row>, i: nat)
    requires Chainable(h, rows) && i < |rows|
    ensures Genuine(h, rows[i])
  {
    var s :| IsOrderingOf(s, rows) && IsChain(h, s);
    assert rows[i] in multiset(rows);
    assert rows[i] in s;
    var k := IndexOf(s, rows[i]);
    ChainLink(h, s, k);
  }
}
