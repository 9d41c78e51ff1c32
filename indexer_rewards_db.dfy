/** The value encoding and statement building of the rewards indexer
    database (crates/indexer/src/db/rewards.rs): `U256` values are stored as
    zero-padded decimal text so that text order is numeric order; batch
    upserts are split into chunks with numbered placeholders; history queries
    number their optional epoch bounds. */
module IndexerRewardsDb {
  import opened Wrappers
  import opened Ints
  import opened Decimal
  import opened Folds

  // ---------------------------------------------------------------------
  // `pad_u256` / `unpad_u256`
  // ---------------------------------------------------------------------

  /** Width of a padded `U256`: 2^256 has 78 decimal digits. */
  const PAD_WIDTH: nat := 78

  predicate AllZeros(s: string) { forall i :: 0 <= i < |s| ==> s[i] == '0' }

  function Zeros(n: nat): (z: string)
    ensures |z| == n && AllZeros(z) && AllDigits(z)
  {
    seq(n, _ => '0')
  }

  /** `format!("{:0>w}", s)`: zeros on the left up to width `w`. */
  function LeftPadZeros(s: string, width: nat): string
  {
    if |s| >= width then s else Zeros(width - |s|) + s
  }

  /** `pad_u256`. */
  function PadU256(v: u256): string
  {
    LeftPadZeros(ToDecimal(v), PAD_WIDTH)
  }

  /** `trim_start_matches('0')`. */
  function TrimLeadingZeros(s: string): string
  {
    if s != [] && s[0] == '0' then TrimLeadingZeros(s[1..]) else s
  }

  datatype DbError = BadTransaction(message: string)

  /** `unpad_u256`: parse the text with its leading zeros removed; when that
      fails, a string of zeros only is zero and anything else is an error. */
  function UnpadU256(s: string): Result<u256, DbError>
  {
    match ParseU256(TrimLeadingZeros(s))
    case Ok(v) => Ok(v)
    case Err(_) => if AllZeros(s) then Ok(0) else Err(BadTransaction("Invalid U256 string: " + s))
  }

  /** Strict lexicographic order on text (byte order on ASCII digits). */
  predicate LexLess(x: string, y: string)
  {
    (x == [] && y != []) ||
    (x != [] && y != [] && (x[0] < y[0] || (x[0] == y[0] && LexLess(x[1..], y[1..]))))
  }

  lemma {:induction false} DigitsValueOfZeros(z: string)
    requires AllZeros(z)
    ensures AllDigits(z) && DigitsValue(z) == 0
    decreases |z|
  {
    if z != [] {
      DigitsValueOfZeros(z[..|z| - 1]);
    }
  }

  /** Leading zeros do not change the value of a digit string. */
  lemma {:induction false} DigitsValueZerosPrefix(z: string, s: string)
    requires AllZeros(z) && AllDigits(s)
    ensures AllDigits(z + s) && DigitsValue(z + s) == DigitsValue(s)
    decreases |s|
  {
    assert AllDigits(z + s) by {
      forall i | 0 <= i < |z + s| ensures IsDigit((z + s)[i]) {
        if i < |z| { assert (z + s)[i] == z[i]; } else { assert (z + s)[i] == s[i - |z|]; }
      }
    }
    if s == [] {
      assert z + s == z;
      DigitsValueOfZeros(z);
    } else {
      var u := z + s;
      assert u[..|u| - 1] == z + s[..|s| - 1];
      assert u[|u| - 1] == s[|s| - 1];
      DigitsValueZerosPrefix(z, s[..|s| - 1]);
    }
  }

  lemma {:induction false} TrimZerosPrefix(z: string, s: string)
    requires AllZeros(z)
    ensures TrimLeadingZeros(z + s) == TrimLeadingZeros(s)
    decreases |z|
  {
    if z == [] {
      assert z + s == s;
    } else {
      assert (z + s)[1..] == z[1..] + s;
      TrimZerosPrefix(z[1..], s);
    }
  }

  /** A padded value is exactly 78 decimal digits and denotes the value. */
  lemma PadU256Shape(v: u256)
    ensures |PadU256(v)| == PAD_WIDTH
    ensures AllDigits(PadU256(v))
    ensures DigitsValue(PadU256(v)) == v
  {
    var d := ToDecimal(v);
    U256HasAtMost78Digits(v);
    ToDecimalValue(v);
    if |d| < PAD_WIDTH {
      DigitsValueZerosPrefix(Zeros(PAD_WIDTH - |d|), d);
    }
  }

  /** `unpad_u256(&pad_u256(v)) == Ok(v)`. */
  lemma UnpadPad(v: u256)
    ensures UnpadU256(PadU256(v)) == Ok(v)
  {
    var d := ToDecimal(v);
    U256HasAtMost78Digits(v);
    ToDecimalNoLeadingZero(v);
    var z := Zeros(PAD_WIDTH - |d|);
    assert PadU256(v) == z + d;
    TrimZerosPrefix(z, d);
    if v == 0 {
      assert TrimLeadingZeros(d) == "";
    } else {
      assert TrimLeadingZeros(d) == d;
      ParseToDecimal(v);
    }
  }

  lemma ShiftDigit(d: nat, p: nat, v: nat, last: nat)
    ensures (d * p + v) * 10 + last == d * (10 * p) + (v * 10 + last)
  {
  }

  /** Peeling the leading digit: it weighs the power of ten of the rest. */
  lemma {:induction false} DigitsValueCons(c: char, t: string)
    requires IsDigit(c) && AllDigits(t)
    ensures AllDigits([c] + t)
    ensures DigitsValue([c] + t) == DigitValue(c) * Pow10(|t|) + DigitsValue(t)
    decreases |t|
  {
    var u := [c] + t;
    assert AllDigits(u) by {
      forall i | 0 <= i < |u| ensures IsDigit(u[i]) {
        if i > 0 { assert u[i] == t[i - 1]; }
      }
    }
    if t == [] {
      assert u[..|u| - 1] == [];
    } else {
      var t' := t[..|t| - 1];
      assert u[..|u| - 1] == [c] + t';
      DigitsValueCons(c, t');
      var d := DigitValue(c);
      var last := DigitValue(t[|t| - 1]);
      assert DigitsValue(u) == DigitsValue([c] + t') * 10 + last;
      assert DigitsValue(t) == DigitsValue(t') * 10 + last;
      assert Pow10(|t|) == 10 * Pow10(|t'|);
      ShiftDigit(d, Pow10(|t'|), DigitsValue(t'), last);
    }
  }

  /** A smaller leading digit decides the comparison, whatever follows. */
  lemma LeadingDigitDecides(dx: nat, dy: nat, p: nat, rx: nat, ry: nat)
    requires dx < dy && rx < p && ry < p
    ensures dx * p + rx < dy * p + ry
  {
    MulMono(dx + 1, dy, p);
    assert (dx + 1) * p == dx * p + p;
  }

  /** The leading digits of two digit strings of one length decide their
      numeric order unless they are equal, and then the rest decides it. */
  lemma LeadingDigitOrder(x: string, y: string)
    requires |x| == |y| && x != [] && AllDigits(x) && AllDigits(y)
    ensures x[0] < y[0] ==> DigitsValue(x) < DigitsValue(y)
    ensures x[0] == y[0] ==> (DigitsValue(x) < DigitsValue(y) <==> DigitsValue(x[1..]) < DigitsValue(y[1..]))
  {
    var x', y' := x[1..], y[1..];
    assert [x[0]] + x' == x;
    assert [y[0]] + y' == y;
    DigitsValueCons(x[0], x');
    DigitsValueCons(y[0], y');
    if x[0] < y[0] {
      LeadingDigitDecides(DigitValue(x[0]), DigitValue(y[0]), Pow10(|x'|), DigitsValue(x'), DigitsValue(y'));
    }
  }

  /** On digit strings of one length, text order is numeric order. */
  lemma {:induction false} LexLessIsNumericLess(x: string, y: string)
    requires |x| == |y| && AllDigits(x) && AllDigits(y)
    ensures LexLess(x, y) <==> DigitsValue(x) < DigitsValue(y)
    decreases |x|
  {
    if x != [] {
      LeadingDigitOrder(x, y);
      LeadingDigitOrder(y, x);
      if x[0] == y[0] {
        LexLessIsNumericLess(x[1..], y[1..]);
      }
    }
  }

  /** Padding preserves order: `a < b` exactly when `pad(a)` sorts before
      `pad(b)` as text, so `a <= b` exactly when `pad(b)` does not sort before
      `pad(a)`. */
  lemma PadPreservesOrder(a: u256, b: u256)
    ensures a < b <==> LexLess(PadU256(a), PadU256(b))
    ensures a <= b <==> !LexLess(PadU256(b), PadU256(a))
  {
    PadU256Shape(a);
    PadU256Shape(b);
    LexLessIsNumericLess(PadU256(a), PadU256(b));
    LexLessIsNumericLess(PadU256(b), PadU256(a));
  }

  lemma {:induction false} TrimAllZeros(s: string)
    requires AllZeros(s)
    ensures TrimLeadingZeros(s) == ""
    decreases |s|
  {
    if s != [] {
      TrimAllZeros(s[1..]);
    }
  }

  /** A string of zeros only, the empty string included, unpads to zero. */
  lemma UnpadAllZeros(s: string)
    requires AllZeros(s)
    ensures UnpadU256(s) == Ok(0)
  {
    TrimAllZeros(s);
    assert SplitRadix("") == ("", 10);
  }

  lemma {:induction false} TrimIsSuffix(s: string)
    ensures |TrimLeadingZeros(s)| <= |s|
    ensures TrimLeadingZeros(s) == s[|s| - |TrimLeadingZeros(s)|..]
    decreases |s|
  {
    if s != [] && s[0] == '0' {
      TrimIsSuffix(s[1..]);
    }
  }

  /** Text holding a character that is neither alphanumeric nor '_' (a
      sign, a space, a decimal point) is an error. */
  lemma UnpadRejectsForeignChar(s: string, i: nat)
    requires i < |s| && s[i] != '_' && AlnumValue(s[i]).None?
    ensures UnpadU256(s).Err?
  {
    var t := TrimLeadingZeros(s);
    TrimIsSuffix(s);
    var k := |s| - |t|;
    assert k <= i by {
      if k > i {
        TrimKeepsNonZero(s, i);
      }
    }
    assert t[i - k] == s[i];
    var (body, radix) := SplitRadix(t);
    if body == t {
      BadCharRejected(t, i - k, radix);
    } else {
      assert body == t[2..];
      if i - k >= 2 {
        assert body[i - k - 2] == s[i];
        BadCharRejected(body, i - k - 2, radix);
      } else {
        assert false;
      }
    }
    assert !AllZeros(s) by {
      assert s[i] != '0';
    }
  }

  /** Trimming stops at the first character that is not '0'. */
  lemma {:induction false} TrimKeepsNonZero(s: string, i: nat)
    requires i < |s| && s[i] != '0'
    ensures |s| - |TrimLeadingZeros(s)| <= i
    decreases |s|
  {
    if s[0] == '0' {
      TrimKeepsNonZero(s[1..], i - 1);
    }
  }

  // ---------------------------------------------------------------------
  // Batch upserts: rows go in chunks of at most `BATCH_INSERT_CHUNK_SIZE`;
  // within a chunk, row `r` of a table with `k` columns uses placeholders
  // `$(r*k+1)` .. `$(r*k+k)`, and the binds are the rows' values in order.
  // ---------------------------------------------------------------------

  const BATCH_INSERT_CHUNK_SIZE: nat := 75

  /** The tables written by the batch upserts. */
  datatype Table =
    | PovwRewardsByEpoch
    | PovwRewardsAggregate
    | StakingPositionsByEpoch
    | StakingPositionsAggregate
    | VoteDelegationPowersByEpoch
    | VoteDelegationPowersAggregate
    | RewardDelegationPowersByEpoch
    | RewardDelegationPowersAggregate
    | StakingRewardsByEpoch

  /** Bound values per row. */
  function Columns(t: Table): nat
  {
    match t
    case PovwRewardsByEpoch => 9
    case PovwRewardsAggregate => 5
    case StakingPositionsByEpoch => 7
    case StakingPositionsAggregate => 8
    case VoteDelegationPowersByEpoch => 5
    case VoteDelegationPowersAggregate => 5
    case RewardDelegationPowersByEpoch => 5
    case RewardDelegationPowersAggregate => 5
    case StakingRewardsByEpoch => 5
  }

  /** Whether each values clause ends in `CURRENT_TIMESTAMP`. */
  predicate Stamped(t: Table)
  {
    t != StakingRewardsByEpoch
  }

  datatype SqlValue = Text(text: string) | Int(number: int) | Real(approx: real)

  /** One `($a,$b,…[,CURRENT_TIMESTAMP])` group of a `VALUES` list. */
  datatype ValuesClause = ValuesClause(placeholders: seq<nat>, stamped: bool)

  datatype Statement = Statement(clauses: seq<ValuesClause>, binds: seq<SqlValue>)

  /** An upsert either returns before touching the database, runs one
      statement per chunk inside one transaction, or runs each chunk's
      statement on its own, so that the chunks before a failing one stay
      written. */
  datatype Batch = NoOp | Transaction(statements: seq<Statement>) | Separate(statements: seq<Statement>)

  /** Every batch upsert opens a transaction except
      `upsert_staking_rewards_by_epoch`, which executes each chunk on the pool. */
  predicate InTransaction(t: Table)
  {
    t != StakingRewardsByEpoch
  }

  /** `rows.chunks(size)`. */
  function Chunks<T>(rows: seq<T>, size: nat): seq<seq<T>>
    requires size > 0
    decreases |rows|
  {
    if rows == [] then []
    else if |rows| <= size then [rows]
    else [rows[..size]] + Chunks(rows[size..], size)
  }

  /** The placeholders of row `r` in a table of `k` columns. */
  function RowPlaceholders(r: nat, k: nat): seq<nat>
  {
    seq(k, f => r * k + f + 1)
  }

  /** The statement written for one chunk. */
  function ChunkStatement<T>(t: Table, chunk: seq<T>, binds: T -> seq<SqlValue>): Statement
  {
    Statement(seq(|chunk|, r requires 0 <= r < |chunk| => ValuesClause(RowPlaceholders(r, Columns(t)), Stamped(t))),
              Flatten(seq(|chunk|, r requires 0 <= r < |chunk| => binds(chunk[r]))))
  }

  function ChunkStatements<T>(t: Table, chunks: seq<seq<T>>, binds: T -> seq<SqlValue>): seq<Statement>
  {
    seq(|chunks|, c requires 0 <= c < |chunks| => ChunkStatement(t, chunks[c], binds))
  }

  /** The concatenation starts with the first sequence. */
  lemma FlattenCons<T>(xss: seq<seq<T>>)
    requires xss != []
    ensures Flatten(xss) == xss[0] + Flatten(xss[1..])
  {
    FlattenAppend([xss[0]], xss[1..]);
    assert [xss[0]] + xss[1..] == xss;
    assert Flatten([xss[0]]) == Flatten<T>([]) + xss[0];
  }

  /** The values clauses of one chunk of `n` rows, the placeholders counted
      up from `$1` across the rows. */
  method ChunkClauses(t: Table, n: nat) returns (clauses: seq<ValuesClause>)
    ensures clauses == seq(n, r requires 0 <= r < n => ValuesClause(RowPlaceholders(r, Columns(t)), Stamped(t)))
  {
    var k := Columns(t);
    clauses := [];
    var paramIdx := 1;
    var j := 0;
    while j < n
      invariant 0 <= j <= n
      invariant paramIdx == j * k + 1
      invariant clauses == seq(j, r requires 0 <= r < j => ValuesClause(RowPlaceholders(r, k), Stamped(t)))
    {
      assert seq(k, f => paramIdx + f) == RowPlaceholders(j, k);
      clauses := clauses + [ValuesClause(seq(k, f => paramIdx + f), Stamped(t))];
      assert (j + 1) * k == j * k + k;
      paramIdx := paramIdx + k;
      j := j + 1;
    }
  }

  /** The values bound for one chunk: each row's values in row order. */
  method ChunkBinds<T>(chunk: seq<T>, binds: T -> seq<SqlValue>) returns (bound: seq<SqlValue>)
    ensures bound == Flatten(seq(|chunk|, r requires 0 <= r < |chunk| => binds(chunk[r])))
  {
    bound := [];
    var j := 0;
    while j < |chunk|
      invariant 0 <= j <= |chunk|
      invariant bound == Flatten(seq(j, r requires 0 <= r < j => binds(chunk[r])))
    {
      ghost var before := seq(j, r requires 0 <= r < j => binds(chunk[r]));
      assert seq(j + 1, r requires 0 <= r < j + 1 => binds(chunk[r])) == before + [binds(chunk[j])];
      assert (before + [binds(chunk[j])])[..j] == before;
      bound := bound + binds(chunk[j]);
      j := j + 1;
    }
  }

  lemma ChunkStatementsCons<T>(t: Table, chunk: seq<T>, chunks: seq<seq<T>>, binds: T -> seq<SqlValue>)
    ensures ChunkStatements(t, [chunk] + chunks, binds)
            == [ChunkStatement(t, chunk, binds)] + ChunkStatements(t, chunks, binds)
  {
    var l := ChunkStatements(t, [chunk] + chunks, binds);
    var r := [ChunkStatement(t, chunk, binds)] + ChunkStatements(t, chunks, binds);
    assert |l| == |r|;
    forall c | 0 <= c < |l| ensures l[c] == r[c] {
      if c > 0 {
        assert ([chunk] + chunks)[c] == chunks[c - 1];
      }
    }
  }

  /** Splitting off the first chunk splits off the first statement. */
  lemma ChunkStatementsFirst<T>(t: Table, rows: seq<T>, binds: T -> seq<SqlValue>)
    requires rows != []
    ensures var m := Min(BATCH_INSERT_CHUNK_SIZE, |rows|);
            ChunkStatements(t, Chunks(rows, BATCH_INSERT_CHUNK_SIZE), binds)
            == [ChunkStatement(t, rows[..m], binds)] + ChunkStatements(t, Chunks(rows[m..], BATCH_INSERT_CHUNK_SIZE), binds)
  {
    var m := Min(BATCH_INSERT_CHUNK_SIZE, |rows|);
    var first := rows[..m];
    var tail := Chunks(rows[m..], BATCH_INSERT_CHUNK_SIZE);
    if |rows| <= BATCH_INSERT_CHUNK_SIZE {
      assert first == rows;
      assert rows[m..] == [];
      assert tail == [];
      assert Chunks(rows, BATCH_INSERT_CHUNK_SIZE) == [first] + tail;
    } else {
      assert Chunks(rows, BATCH_INSERT_CHUNK_SIZE) == [first] + tail;
    }
    ChunkStatementsCons(t, first, tail, binds);
  }

  /** Emitting the first chunk's statement moves it from the pending
      statements to the emitted ones. */
  lemma ChunkStatementsStep<T>(t: Table, remaining: seq<T>, binds: T -> seq<SqlValue>,
                               emitted: seq<Statement>, next: Statement)
    requires remaining != []
    requires next == ChunkStatement(t, remaining[..Min(BATCH_INSERT_CHUNK_SIZE, |remaining|)], binds)
    ensures var m := Min(BATCH_INSERT_CHUNK_SIZE, |remaining|);
            (emitted + [next]) + ChunkStatements(t, Chunks(remaining[m..], BATCH_INSERT_CHUNK_SIZE), binds)
            == emitted + ChunkStatements(t, Chunks(remaining, BATCH_INSERT_CHUNK_SIZE), binds)
  {
    var m := Min(BATCH_INSERT_CHUNK_SIZE, |remaining|);
    ChunkStatementsFirst(t, remaining, binds);
    MoveFirst(emitted, next, ChunkStatements(t, Chunks(remaining[m..], BATCH_INSERT_CHUNK_SIZE), binds));
  }

  /** Moving the head of the pending part onto the end of the done part
      keeps the whole sequence. */
  lemma MoveFirst<S>(done: seq<S>, head: S, pending: seq<S>)
    ensures (done + [head]) + pending == done + ([head] + pending)
  {
  }

  /** The `upsert_*` builders: one statement per chunk, each chunk's values
      clauses numbered from `$1`, and the rows' values bound in order; the
      statements share one transaction unless the table is written chunk by
      chunk. */
  method BatchUpsert<T>(t: Table, rows: seq<T>, binds: T -> seq<SqlValue>) returns (batch: Batch)
    ensures rows == [] ==> batch == NoOp
    ensures rows != [] && InTransaction(t) ==>
              batch == Transaction(ChunkStatements(t, Chunks(rows, BATCH_INSERT_CHUNK_SIZE), binds))
    ensures rows != [] && !InTransaction(t) ==>
              batch == Separate(ChunkStatements(t, Chunks(rows, BATCH_INSERT_CHUNK_SIZE), binds))
  {
    if |rows| == 0 {
      return NoOp;
    }
    var statements: seq<Statement> := [];
    var remaining := rows;
    while remaining != []
      invariant statements + ChunkStatements(t, Chunks(remaining, BATCH_INSERT_CHUNK_SIZE), binds)
             == ChunkStatements(t, Chunks(rows, BATCH_INSERT_CHUNK_SIZE), binds)
      decreases |remaining|
    {
      var m := Min(BATCH_INSERT_CHUNK_SIZE, |remaining|);
      var chunk := remaining[..m];
      var clauses := ChunkClauses(t, |chunk|);
      var bound := ChunkBinds(chunk, binds);
      var next := Statement(clauses, bound);
      ChunkStatementsStep(t, remaining, binds, statements, next);
      statements := statements + [next];
      remaining := remaining[m..];
    }
    assert ChunkStatements(t, Chunks(remaining, BATCH_INSERT_CHUNK_SIZE), binds) == [];
    if InTransaction(t) {
      return Transaction(statements);
    }
    return Separate(statements);
  }

  /** The chunks hold every row, in order; each holds between one and `size`
      rows, and all but the last exactly `size`. */
  lemma {:induction false} ChunksCover<T>(rows: seq<T>, size: nat)
    requires size > 0
    ensures Flatten(Chunks(rows, size)) == rows
    ensures forall c :: 0 <= c < |Chunks(rows, size)| ==> 1 <= |Chunks(rows, size)[c]| <= size
    ensures forall c :: 0 <= c < |Chunks(rows, size)| - 1 ==> |Chunks(rows, size)[c]| == size
    decreases |rows|
  {
    if rows != [] && |rows| > size {
      ChunksCover(rows[size..], size);
      var cs := Chunks(rows, size);
      assert cs[1..] == Chunks(rows[size..], size);
      FlattenCons(cs);
      assert rows[..size] + rows[size..] == rows;
    } else if rows != [] {
      assert Flatten([rows]) == Flatten<T>([]) + rows;
    }
  }

  /** Rows of equal width: value `f` of row `r` sits at `r*k+f`. */
  lemma {:induction false} FlattenUniform<T>(xss: seq<seq<T>>, k: nat, r: nat, f: nat)
    requires forall i :: 0 <= i < |xss| ==> |xss[i]| == k
    requires r < |xss| && f < k
    ensures |Flatten(xss)| >= r * k + f + 1
    ensures Flatten(xss)[r * k + f] == xss[r][f]
    decreases r
  {
    FlattenUniformLength(xss, k);
    FlattenCons(xss);
    if r > 0 {
      FlattenUniform(xss[1..], k, r - 1, f);
      assert r * k + f == k + ((r - 1) * k + f);
    }
  }

  lemma {:induction false} FlattenUniformLength<T>(xss: seq<seq<T>>, k: nat)
    requires forall i :: 0 <= i < |xss| ==> |xss[i]| == k
    ensures |Flatten(xss)| == |xss| * k
    decreases |xss|
  {
    if xss != [] {
      FlattenUniformLength(xss[1..], k);
      FlattenCons(xss);
      assert |xss| * k == k + (|xss| - 1) * k;
    }
  }

  /** In each statement, placeholder `$(r*k+f+1)` of row `r` is bound to
      value `f` of that row, the statement binds exactly `k` values per row,
      and so never more than `75*k` parameters. */
  lemma PlaceholdersMatchBinds<T>(t: Table, chunk: seq<T>, binds: T -> seq<SqlValue>, r: nat, f: nat)
    requires forall row :: |binds(row)| == Columns(t)
    requires |chunk| <= BATCH_INSERT_CHUNK_SIZE
    requires r < |chunk| && f < Columns(t)
    ensures var s := ChunkStatement(t, chunk, binds);
      |s.clauses| == |chunk| &&
      s.clauses[r].placeholders[f] == r * Columns(t) + f + 1 &&
      |s.binds| == |chunk| * Columns(t) <= BATCH_INSERT_CHUNK_SIZE * Columns(t) &&
      s.binds[s.clauses[r].placeholders[f] - 1] == binds(chunk[r])[f]
  {
    var k := Columns(t);
    var rowsBinds := seq(|chunk|, i requires 0 <= i < |chunk| => binds(chunk[i]));
    FlattenUniformLength(rowsBinds, k);
    FlattenUniform(rowsBinds, k, r, f);
    MulMono(|chunk|, BATCH_INSERT_CHUNK_SIZE, k);
  }

  /** Nine bound values in column order. */
  function Row9(v0: SqlValue, v1: SqlValue, v2: SqlValue, v3: SqlValue, v4: SqlValue,
                v5: SqlValue, v6: SqlValue, v7: SqlValue, v8: SqlValue): (vs: seq<SqlValue>)
    ensures |vs| == 9
    ensures vs[0] == v0 && vs[1] == v1 && vs[2] == v2 && vs[3] == v3 && vs[4] == v4
    ensures vs[5] == v5 && vs[6] == v6 && vs[7] == v7 && vs[8] == v8
  {
    [v0, v1, v2, v3, v4, v5, v6, v7, v8]
  }

  /** The row type written to `povw_rewards_by_epoch`. */
  datatype PovwRewardByEpoch = PovwRewardByEpoch(
    workLogId: Address, workSubmitted: u256, percentage: real, uncappedRewards: u256,
    rewardCap: u256, actualRewards: u256, isCapped: bool, stakedAmount: u256)

  /** The values bound for one row of `upsert_povw_rewards_by_epoch`, in
      column order: the log ID as `{:#x}` text, the epoch as `i64`, amounts
      in padded form, the percentage and the capped flag as 0 or 1. */
  function PovwRewardBinds(epoch: u64, row: PovwRewardByEpoch): (vs: seq<SqlValue>)
    ensures |vs| == Columns(PovwRewardsByEpoch)
    ensures vs[0].Text? && |vs[0].text| == 42 && vs[0].text[..2] == "0x"
    ensures vs[2].Text? && vs[4].Text? && vs[5].Text? && vs[6].Text? && vs[8].Text?
    ensures vs[1].Int? && -0x8000_0000_0000_0000 <= vs[1].number < 0x8000_0000_0000_0000
    ensures vs[7].Int? && (vs[7].number == 1 <==> row.isCapped) && (vs[7].number == 0 <==> !row.isCapped)
  {
    Row9(Text(AddressHex(row.workLogId)), Int(AsI64(epoch)), Text(PadU256(row.workSubmitted)), Real(row.percentage),
     Text(PadU256(row.uncappedRewards)), Text(PadU256(row.rewardCap)), Text(PadU256(row.actualRewards)),
     Int(if row.isCapped then 1 else 0), Text(PadU256(row.stakedAmount)))
  }

  /** Every bound value reads back to the row field it stores: the log ID
      from its hexadecimal digits, the epoch modulo 2^64, and each amount
      through `unpad_u256`. */
  lemma PovwRewardBindsReadBack(epoch: u64, row: PovwRewardByEpoch)
    requires row.workLogId < Pow16(40)
    ensures var vs := PovwRewardBinds(epoch, row);
            HexValue(vs[0].text[2..]) == row.workLogId
            && vs[1].number % U64_LIMIT == epoch
            && |vs[2].text| == PAD_WIDTH && UnpadU256(vs[2].text) == Ok(row.workSubmitted)
            && vs[3] == Real(row.percentage)
            && UnpadU256(vs[4].text) == Ok(row.uncappedRewards)
            && UnpadU256(vs[5].text) == Ok(row.rewardCap)
            && UnpadU256(vs[6].text) == Ok(row.actualRewards)
            && UnpadU256(vs[8].text) == Ok(row.stakedAmount)
  {
    AddressHexReadsBack(row.workLogId, row.workLogId);
    AsI64ReadsBack(epoch);
    PadU256Shape(row.workSubmitted);
    UnpadPad(row.workSubmitted);
    UnpadPad(row.uncappedRewards);
    UnpadPad(row.rewardCap);
    UnpadPad(row.actualRewards);
    UnpadPad(row.stakedAmount);
  }

  /** `upsert_povw_rewards_by_epoch`. */
  method UpsertPovwRewardsByEpoch(epoch: u64, rewards: seq<PovwRewardByEpoch>) returns (batch: Batch)
    ensures rewards == [] ==> batch == NoOp
    ensures rewards != [] ==> batch == Transaction(ChunkStatements(PovwRewardsByEpoch,
      Chunks(rewards, BATCH_INSERT_CHUNK_SIZE), row => PovwRewardBinds(epoch, row)))
  {
    batch := BatchUpsert(PovwRewardsByEpoch, rewards, row => PovwRewardBinds(epoch, row));
  }

  /** The row type written to `staking_rewards_by_epoch`. */
  datatype StakingRewardByEpoch = StakingRewardByEpoch(
    stakerAddress: Address, stakingPower: u256, percentage: real, rewardsEarned: u256)

  /** The values bound for one row of `upsert_staking_rewards_by_epoch`. */
  function StakingRewardBinds(epoch: u64, row: StakingRewardByEpoch): (vs: seq<SqlValue>)
    ensures |vs| == Columns(StakingRewardsByEpoch)
    ensures vs[0].Text? && |vs[0].text| == 42 && vs[0].text[..2] == "0x"
    ensures vs[1].Int? && vs[2].Text? && vs[4].Text?
  {
    [Text(AddressHex(row.stakerAddress)), Int(AsI64(epoch)), Text(PadU256(row.stakingPower)), Real(row.percentage),
     Text(PadU256(row.rewardsEarned))]
  }

  /** The staker, the power and the rewards read back from their bound text. */
  lemma StakingRewardBindsReadBack(epoch: u64, row: StakingRewardByEpoch)
    requires row.stakerAddress < Pow16(40)
    ensures var vs := StakingRewardBinds(epoch, row);
            HexValue(vs[0].text[2..]) == row.stakerAddress
            && vs[1].number % U64_LIMIT == epoch
            && UnpadU256(vs[2].text) == Ok(row.stakingPower)
            && vs[3] == Real(row.percentage)
            && UnpadU256(vs[4].text) == Ok(row.rewardsEarned)
  {
    AddressHexReadsBack(row.stakerAddress, row.stakerAddress);
    AsI64ReadsBack(epoch);
    UnpadPad(row.stakingPower);
    UnpadPad(row.rewardsEarned);
  }

  /** `upsert_staking_rewards_by_epoch`: no transaction, so each chunk is
      its own statement on the pool. */
  method UpsertStakingRewardsByEpoch(epoch: u64, rewards: seq<StakingRewardByEpoch>) returns (batch: Batch)
    ensures rewards == [] ==> batch == NoOp
    ensures rewards != [] ==> batch == Separate(ChunkStatements(StakingRewardsByEpoch,
      Chunks(rewards, BATCH_INSERT_CHUNK_SIZE), row => StakingRewardBinds(epoch, row)))
  {
    batch := BatchUpsert(StakingRewardsByEpoch, rewards, row => StakingRewardBinds(epoch, row));
  }

  // ---------------------------------------------------------------------
  // History queries: `$1` is the address; an optional start and end epoch
  // take the next placeholders in order of presence.
  // ---------------------------------------------------------------------

  datatype EpochBound = AtLeast(placeholder: nat) | AtMost(placeholder: nat)

  function RenderBound(b: EpochBound): string
  {
    match b
    case AtLeast(n) => " AND epoch >= $" + ToDecimal(n)
    case AtMost(n) => " AND epoch <= $" + ToDecimal(n)
  }

  function RenderBounds(bs: seq<EpochBound>): string
  {
    if bs == [] then "" else RenderBounds(bs[..|bs| - 1]) + RenderBound(bs[|bs| - 1])
  }

  /** The epoch filter and binds of the `*_history_*` queries. */
  method HistoryFilter(subject: SqlValue, startEpoch: Option<u64>, endEpoch: Option<u64>)
    returns (sqlTail: string, bounds: seq<EpochBound>, binds: seq<SqlValue>)
    ensures sqlTail == RenderBounds(bounds) + " ORDER BY epoch DESC"
    ensures |binds| == |bounds| + 1 && binds[0] == subject
    ensures |bounds| == (if startEpoch.Some? then 1 else 0) + (if endEpoch.Some? then 1 else 0)
    ensures forall i :: 0 <= i < |bounds| ==> bounds[i].placeholder == i + 2
    ensures startEpoch.Some? ==> bounds[0] == AtLeast(2) && binds[1] == Int(AsI64(startEpoch.value))
    ensures endEpoch.Some? ==> bounds[|bounds| - 1].AtMost? && binds[|binds| - 1] == Int(AsI64(endEpoch.value))
    ensures forall i :: 0 <= i < |bounds| ==> (bounds[i].AtLeast? <==> (i == 0 && startEpoch.Some?))
  {
    var query := "";
    var bindCount := 1;
    bounds := [];
    if startEpoch.Some? {
      bindCount := bindCount + 1;
      query := query + RenderBound(AtLeast(bindCount));
      bounds := bounds + [AtLeast(bindCount)];
    }
    if endEpoch.Some? {
      bindCount := bindCount + 1;
      query := query + RenderBound(AtMost(bindCount));
      bounds := bounds + [AtMost(bindCount)];
    }
    assert query == RenderBounds(bounds) by {
      if |bounds| == 2 {
        assert bounds[..1] == [bounds[0]];
        assert bounds[..0] == [];
        assert RenderBounds(bounds[..1]) == "" + RenderBound(bounds[0]);
      } else if |bounds| == 1 {
        assert bounds[..0] == [];
        assert RenderBounds(bounds) == "" + RenderBound(bounds[0]);
      }
    }
    sqlTail := query + " ORDER BY epoch DESC";
    binds := [subject];
    if startEpoch.Some? {
      binds := binds + [Int(AsI64(startEpoch.value))];
    }
    if endEpoch.Some? {
      binds := binds + [Int(AsI64(endEpoch.value))];
    }
  }
}
