/**
 * The comma/tab separated text parser of main.js (`parseDelimitedText`):
 * records keyed by the trimmed header names, one per data line, with every
 * cell coerced to a number or kept as its trimmed text.
 */
module Delimited {
  import opened Options
  import opened Text
  import opened Numbers

  /** A cell after coercion. */
  datatype Value = Num(n: real) | Str(s: string)

  datatype Field = Field(key: string, value: Value)

  /** A row object: its own properties in insertion order, as `Object.keys` lists them. */
  type Record = seq<Field>

  type Dataset = seq<Record>

  /** The keys of a record, in order. */
  function Keys(r: Record): (ks: seq<string>)
    ensures |ks| == |r|
    ensures forall i :: 0 <= i < |r| ==> ks[i] == r[i].key
  {
    if r == [] then [] else [r[0].key] + Keys(r[1..])
  }

  /** No key occurs twice, as in any JS object. */
  predicate UniqueKeys(r: Record) {
    forall i, j :: 0 <= i < j < |r| ==> r[i].key != r[j].key
  }

  /** `r[k]`: the value stored under `k`, or None for a property the row does not have. */
  function Lookup(r: Record, k: string): (v: Option<Value>)
    ensures v.None? <==> k !in Keys(r)
  {
    if r == [] then None
    else if r[0].key == k then Some(r[0].value)
    else Lookup(r[1..], k)
  }

  /**
   * The one name an assignment on a plain object does not store: `obj["__proto__"] = v`
   * runs the inherited prototype setter, which ignores a number or a string.
   */
  const ProtoKey: string := "__proto__"

  /**
   * `obj[k] = v` with a number or string `v`: an existing key keeps its place
   * and takes the new value, a new key goes last, and `__proto__` is not stored.
   */
  function Put(r: Record, k: string, v: Value): Record {
    if k == ProtoKey then r
    else if r == [] then [Field(k, v)]
    else if r[0].key == k then [Field(k, v)] + r[1..]
    else [r[0]] + Put(r[1..], k, v)
  }

  /** Storing a key adds it at the end only when it is new; an existing key keeps its place; `__proto__` adds nothing. */
  lemma {:induction false} PutKeyOrder(r: Record, k: string, v: Value)
    ensures Keys(Put(r, k, v)) == if k == ProtoKey || k in Keys(r) then Keys(r) else Keys(r) + [k]
  {
    if k == ProtoKey {
    } else if r == [] {
      assert Put(r, k, v) == [Field(k, v)];
    } else if r[0].key == k {
      var r' := [Field(k, v)] + r[1..];
      assert Put(r, k, v) == r';
      assert Keys(r)[0] == k;
      assert Keys(r') == Keys(r);
    } else {
      var rest := r[1..];
      var tail := Put(rest, k, v);
      PutKeyOrder(rest, k, v);
      assert Put(r, k, v) == [r[0]] + tail;
      assert Keys(r) == [r[0].key] + Keys(rest);
      assert Keys([r[0]] + tail) == [r[0].key] + Keys(tail);
      assert k in Keys(r) <==> k in Keys(rest);
    }
  }

  /** Storing a key keeps the keys unique, and adds the key at the end only when it is new. */
  lemma PutKeys(r: Record, k: string, v: Value)
    requires UniqueKeys(r)
    ensures UniqueKeys(Put(r, k, v))
    ensures Keys(Put(r, k, v)) == if k == ProtoKey || k in Keys(r) then Keys(r) else Keys(r) + [k]
  {
    PutKeyOrder(r, k, v);
    var p := Put(r, k, v);
    var ks := Keys(p);
    forall i, j | 0 <= i < j < |p| ensures p[i].key != p[j].key {
      assert ks[i] == p[i].key && ks[j] == p[j].key;
      if k != ProtoKey && k !in Keys(r) && j == |r| {
        assert ks[j] == k && ks[i] == Keys(r)[i];
      } else {
        assert ks[i] == r[i].key && ks[j] == r[j].key;
      }
    }
  }

  /** After `obj[k] = v`, `k` holds `v` unless it is `__proto__`, and every other key holds what it held before. */
  lemma {:induction false} PutLookup(r: Record, k: string, v: Value, k': string)
    ensures Lookup(Put(r, k, v), k') == if k' == k && k != ProtoKey then Some(v) else Lookup(r, k')
  {
    if k != ProtoKey && r != [] && r[0].key != k {
      PutLookup(r[1..], k, v, k');
      assert Put(r, k, v)[1..] == Put(r[1..], k, v);
    }
  }

  // ---------------------------------------------------------------- cells

  /** The coercion of a trimmed cell text: a number when it is non-empty and finite, else the text. */
  function Coerce(v: string): Value {
    if v != "" && IsFiniteNumber(v) then Num(NumberValue(v)) else Str(v)
  }

  /** `values[i] ?? ""`: the token at position `i`, or the empty string past the end of the row. */
  function Token(values: seq<string>, i: nat): string {
    if i < |values| then values[i] else ""
  }

  /** `(values[i] ?? "").trim()`, coerced. */
  function CellAt(values: seq<string>, i: nat): Value {
    Coerce(Trim(Token(values, i)))
  }

  /**
   * A cell is a number exactly when its text is non-empty and passes the
   * finite-number test, and then it is the number the text denotes; any
   * other text is kept as it is, so the empty cell is `Str("")`.
   */
  lemma CoerceRule(v: string)
    ensures Coerce(v).Num? <==> v != "" && IsFiniteNumber(v)
    ensures Coerce(v).Num? ==> Coerce(v).n == NumberValue(v)
    ensures Coerce(v).Str? ==> Coerce(v).s == v
    ensures v == "" ==> Coerce(v) == Str("")
  {
  }

  /** The text of an integer is coerced to that integer. */
  lemma CoerceIntegerText(n: int)
    ensures Coerce(IntText(n)) == Num(n as real)
  {
    IntTextRoundTrip(n);
    FiniteNumberShape(IntText(n));
  }

  /** A position past the end of the row's tokens holds the empty string. */
  lemma CellPastEnd(values: seq<string>, i: nat)
    requires i >= |values|
    ensures CellAt(values, i) == Str("")
  {
    assert Trim("") == "";
  }

  // ---------------------------------------------------------------- records

  /**
   * The keys that assigning to the names of `s`, in order, creates: the names
   * in order of first occurrence, without `__proto__`.
   */
  function OwnKeys(s: seq<string>): seq<string> {
    if s == [] then [] else
      var d := OwnKeys(s[..|s| - 1]);
      if s[|s| - 1] == ProtoKey || s[|s| - 1] in d then d else d + [s[|s| - 1]]
  }

  /** The own keys are the names other than `__proto__`, each once. */
  lemma {:induction false} OwnKeysElements(s: seq<string>)
    ensures forall x :: x in OwnKeys(s) <==> x in s && x != ProtoKey
    ensures forall i, j :: 0 <= i < j < |OwnKeys(s)| ==> OwnKeys(s)[i] != OwnKeys(s)[j]
  {
    if s != [] {
      OwnKeysElements(s[..|s| - 1]);
      assert s == s[..|s| - 1] + [s[|s| - 1]];
    }
  }

  /** Index of the last occurrence of `k` in `s`. */
  function LastIndex(s: seq<string>, k: string): (i: nat)
    requires k in s
    ensures i < |s| && s[i] == k
    ensures forall j :: i < j < |s| ==> s[j] != k
  {
    if s[|s| - 1] == k then |s| - 1 else LastIndex(s[..|s| - 1], k)
  }

  /** The coerced cells of the first `n` positions of a row. */
  function Cells(values: seq<string>, n: nat): (cs: seq<Value>)
    ensures |cs| == n
  {
    seq(n, i requires 0 <= i < n => CellAt(values, i))
  }

  /** The row object after the first `n` header positions have been stored, in header order. */
  function Build(headers: seq<string>, cells: seq<Value>, n: nat): Record
    requires n <= |headers| && n <= |cells|
  {
    if n == 0 then []
    else Put(Build(headers, cells, n - 1), headers[n - 1], cells[n - 1])
  }

  /** The row object built from one data line's tokens (`headers.forEach`). */
  function MakeRecord(headers: seq<string>, values: seq<string>): Record {
    Build(headers, Cells(values, |headers|), |headers|)
  }

  /** The row object has unique keys: the header names in order of first occurrence, less `__proto__`. */
  lemma {:induction false} BuildKeys(headers: seq<string>, cells: seq<Value>, n: nat)
    requires n <= |headers| && n <= |cells|
    ensures UniqueKeys(Build(headers, cells, n))
    ensures Keys(Build(headers, cells, n)) == OwnKeys(headers[..n])
  {
    if n > 0 {
      BuildKeys(headers, cells, n - 1);
      PutKeys(Build(headers, cells, n - 1), headers[n - 1], cells[n - 1]);
      assert headers[..n][..n - 1] == headers[..n - 1];
    }
  }

  /** The last occurrence in `pre + [h]` is the new element when it matches, else the last one in `pre`. */
  lemma LastIndexSnoc(pre: seq<string>, h: string, k: string)
    requires k in pre + [h]
    ensures k != h ==> k in pre && LastIndex(pre + [h], k) == LastIndex(pre, k)
    ensures k == h ==> LastIndex(pre + [h], k) == |pre|
  {
    assert (pre + [h])[..|pre|] == pre;
  }

  /** Every header name but `__proto__` is a key, holding the cell of the LAST column with that name; nothing else is a key. */
  lemma {:induction false} BuildLookup(headers: seq<string>, cells: seq<Value>, n: nat, k: string)
    requires n <= |headers| && n <= |cells|
    ensures Lookup(Build(headers, cells, n), k)
         == if k in headers[..n] && k != ProtoKey then Some(cells[LastIndex(headers[..n], k)]) else None
  {
    if n > 0 {
      var h, pre, cur := headers[n - 1], headers[..n - 1], headers[..n];
      var prev := Build(headers, cells, n - 1);
      assert cur == pre + [h];
      BuildLookup(headers, cells, n - 1, k);
      PutLookup(prev, h, cells[n - 1], k);
      assert Build(headers, cells, n) == Put(prev, h, cells[n - 1]);
      if k in cur && k != ProtoKey {
        LastIndexSnoc(pre, h, k);
      }
    }
  }

  /** The record holds, under each header name but `__proto__`, the cell of the last column so named, and no other key. */
  lemma MakeRecordLookup(headers: seq<string>, values: seq<string>, k: string)
    ensures Lookup(MakeRecord(headers, values), k)
         == if k in headers && k != ProtoKey then Some(CellAt(values, LastIndex(headers, k))) else None
  {
    BuildLookup(headers, Cells(values, |headers|), |headers|, k);
    assert headers[..|headers|] == headers;
  }

  /**
   * The record's keys are the distinct header names other than `__proto__`, in
   * order; with distinct headers and no `__proto__`, exactly the headers.
   */
  lemma MakeRecordKeys(headers: seq<string>, values: seq<string>)
    ensures UniqueKeys(MakeRecord(headers, values))
    ensures Keys(MakeRecord(headers, values)) == OwnKeys(headers)
    ensures forall h :: h in Keys(MakeRecord(headers, values)) <==> h in headers && h != ProtoKey
    ensures (forall i, j :: 0 <= i < j < |headers| ==> headers[i] != headers[j]) && ProtoKey !in headers
            ==> Keys(MakeRecord(headers, values)) == headers
  {
    BuildKeys(headers, Cells(values, |headers|), |headers|);
    OwnKeysElements(headers);
    assert headers[..|headers|] == headers;
    if (forall i, j :: 0 <= i < j < |headers| ==> headers[i] != headers[j]) && ProtoKey !in headers {
      OwnKeysDistinct(headers);
    }
  }

  lemma {:induction false} OwnKeysDistinct(s: seq<string>)
    requires forall i, j :: 0 <= i < j < |s| ==> s[i] != s[j]
    requires ProtoKey !in s
    ensures OwnKeys(s) == s
  {
    if s != [] {
      OwnKeysDistinct(s[..|s| - 1]);
      assert s == s[..|s| - 1] + [s[|s| - 1]];
    }
  }

  /** Tokens beyond the header count never reach the record. */
  lemma MakeRecordIgnoresExtra(headers: seq<string>, values: seq<string>, extra: seq<string>)
    requires |values| >= |headers|
    ensures MakeRecord(headers, values + extra) == MakeRecord(headers, values)
  {
    forall i | 0 <= i < |headers| ensures CellAt(values + extra, i) == CellAt(values, i) {
      assert (values + extra)[i] == values[i];
    }
    assert Cells(values + extra, |headers|) == Cells(values, |headers|);
  }

  // ---------------------------------------------------------------- parse

  /** Tab when the header line holds a tab, comma otherwise. */
  function Delimiter(header: string): char {
    if '\t' in header then '\t' else ','
  }

  /** The trimmed header names. */
  function Headers(header: string): seq<string> {
    var parts := Split(header, Delimiter(header));
    seq(|parts|, i requires 0 <= i < |parts| => Trim(parts[i]))
  }

  /** One record per data line, each split by `d` and keyed by `headers`. */
  function Rows(headers: seq<string>, d: char, data: seq<string>): (ds: Dataset)
    ensures |ds| == |data|
  {
    seq(|data|, k requires 0 <= k < |data| => MakeRecord(headers, Split(data[k], d)))
  }

  /** `parseDelimitedText`, given the lines of the trimmed text. */
  function ParseLines(lines: seq<string>): Dataset {
    if |lines| < 2 then [] else Rows(Headers(lines[0]), Delimiter(lines[0]), lines[1..])
  }

  /** `parseDelimitedText`. */
  function Parse(text: string): Dataset {
    ParseLines(Lines(Trim(text)))
  }

  /** One record per line break of the trimmed text: none for a text of fewer than two lines. */
  lemma ParseCount(text: string)
    ensures |Lines(Trim(text))| < 2 ==> Parse(text) == []
    ensures |Parse(text)| == |Lines(Trim(text))| - 1 == Count(Trim(text), '\n')
    ensures Parse(text) == [] <==> '\n' !in Trim(text)
  {
    CountZero(Trim(text), '\n');
  }

  /**
   * Record `k` is built from data line `k + 1`, split by the delimiter the
   * header line alone chose, keyed by the trimmed header names.
   */
  lemma ParseRows(text: string, k: nat)
    requires k < |Parse(text)|
    ensures var lines := Lines(Trim(text));
      && (Delimiter(lines[0]) == '\t' <==> '\t' in lines[0])
      && (Delimiter(lines[0]) == '\t' || Delimiter(lines[0]) == ',')
      && Parse(text)[k] == MakeRecord(Headers(lines[0]), Split(lines[k + 1], Delimiter(lines[0])))
  {
  }

  /**
   * Every record has exactly the trimmed header names other than `__proto__`
   * as keys, and each key holds its column's cell.
   */
  lemma ParseRecordShape(text: string, k: nat, h: string)
    requires k < |Parse(text)|
    ensures var lines := Lines(Trim(text));
      var headers := Headers(lines[0]);
      var tokens := Split(lines[k + 1], Delimiter(lines[0]));
      && Keys(Parse(text)[k]) == OwnKeys(headers)
      && (h in Keys(Parse(text)[k]) <==> h in headers && h != ProtoKey)
      && (h in headers && h != ProtoKey ==> Lookup(Parse(text)[k], h) == Some(CellAt(tokens, LastIndex(headers, h))))
  {
    var lines := Lines(Trim(text));
    var headers := Headers(lines[0]);
    var tokens := Split(lines[k + 1], Delimiter(lines[0]));
    MakeRecordKeys(headers, tokens);
    MakeRecordLookup(headers, tokens, h);
  }
}
