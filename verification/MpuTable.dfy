/** Region tables, which the Armv7-M and Armv8-M loaders lay out alike: two words a row. */
module MpuTable {
  import opened Bits

  /** RBAR and the attribute word: RASR on Armv7-M, RLAR on Armv8-M. */
  datatype Region = Region(rbar: word, attr: word)

  /** A table as the words it is in memory. */
  function Words(table: seq<Region>): (ws: seq<word>)
    ensures |ws| == 2 * |table|
  {
    if table == [] then [] else Words(table[..|table| - 1]) + [table[|table| - 1].rbar, table[|table| - 1].attr]
  }

  lemma WordsLast(table: seq<Region>, last: Region)
    ensures Words(table + [last]) == Words(table) + [last.rbar, last.attr]
  {
    assert (table + [last])[..|table|] == table;
  }

  lemma {:induction false} WordsConcat(a: seq<Region>, b: seq<Region>)
    ensures Words(a + b) == Words(a) + Words(b)
    decreases |b|
  {
    if b == [] {
      assert a + b == a;
    } else {
      hide Words;
      var front, last := b[..|b| - 1], b[|b| - 1];
      WordsConcat(a, front);
      WordsLast(front, last);
      WordsLast(a + front, last);
      assert b == front + [last] && a + b == a + front + [last];
    }
  }

  /** The rows from i to j of a table are its words from 2 * i to 2 * j. */
  lemma RowWords(table: seq<Region>, i: nat, j: nat)
    requires i <= j <= |table|
    ensures Words(table)[2 * i..2 * j] == Words(table[i..j])
  {
    hide Words;
    WordsConcat(table[..i], table[i..j]);
    WordsConcat(table[..j], table[j..]);
    SlicesJoin(table, i, j);
    SlicesJoin(table, j, |table|);
    assert table[..|table|] == table;
    Between(Words(table[..i]), Words(table[i..j]), Words(table[j..]));
  }

  lemma Between(a: seq<word>, b: seq<word>, c: seq<word>)
    ensures (a + b + c)[|a|..|a| + |b|] == b
  {
  }

  lemma SlicesJoin(table: seq<Region>, i: nat, j: nat)
    requires i <= j <= |table|
    ensures table[..i] + table[i..j] == table[..j]
  {
  }
}
