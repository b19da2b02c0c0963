// effects/taskbarthumbnail/taskbarthumbnail.cpp: the _KDE_WINDOW_PREVIEW
// property of a window lists thumbnails to paint on it. The property is read
// as an array of longs (8 bytes each): word 0 is the record count, and each
// record is [size, window, x, y, width, height, ...] where size counts the
// words after the size word.
module TaskbarThumbnails {
  import opened Common

  /** The size of a long on the platforms the effect runs on. */
  const LONG_BYTES: nat := 8

  /** The conversion of a long to a 32-bit int (two's complement wrap-around). */
  function Int32(x: int): (r: int)
    ensures -0x8000_0000 <= r < 0x8000_0000
    ensures -0x8000_0000 <= x < 0x8000_0000 ==> r == x
  {
    (x + 0x8000_0000) % 0x1_0000_0000 - 0x8000_0000
  }

  /** One entry of the thumbnails multimap: the window to show and where. */
  datatype Thumb = Thumb(window: int, rect: Rect)

  /** The thumbnail of the record whose size word is at pos. */
  function RecordAt(d: seq<int>, pos: nat): Thumb
    requires pos + 5 < |d|
  {
    Thumb(d[pos + 1], Rect(Point(Int32(d[pos + 2]), Int32(d[pos + 3])), Size(Int32(d[pos + 4]), Int32(d[pos + 5]))))
  }

  /**
   * The record loop of propertyNotify as written. None stands for a read
   * outside the property data: the size word is read without checking
   * pos < len, and the check `len - pos < size` made before `++pos` does
   * not make the five words after the size word exist.
   */
  function RecordsAsWritten(d: seq<int>, cnt: int, i: int, pos: int, acc: seq<Thumb>): Option<seq<Thumb>>
    decreases cnt - i
  {
    if i >= cnt then Some(acc)
    else if !(0 <= pos < |d|) then None
    else
      var size := Int32(d[pos]);
      if |d| - pos < size then Some(acc)
      else if !(0 <= pos + 1 && pos + 5 < |d|) then None
      else RecordsAsWritten(d, cnt, i + 1, pos + 1 + size, acc + [RecordAt(d, pos)])
  }

  /** propertyNotify's parse as written, for a property of `bytes` bytes whose complete longs are d. */
  function ParseAsWritten(bytes: nat, d: seq<int>): Option<seq<Thumb>>
    requires |d| == bytes / LONG_BYTES
  {
    if bytes < 1 then Some([])
    else if |d| < 1 then None
    else RecordsAsWritten(d, Int32(d[0]), 0, 1, [])
  }

  /** A property one long plus the first five words of a record long: the record's last word is read past the end. */
  lemma ParseAsWrittenReadsPastEnd()
    ensures ParseAsWritten(48, [1, 5, 7, 0, 0, 10]).None?
    ensures ParseThumbnails([1, 5, 7, 0, 0, 10]) == []
  {
    assert RecordsAsWritten([1, 5, 7, 0, 0, 10], 1, 0, 1, []).None?;
    assert Records([1, 5, 7, 0, 0, 10], 1, 0, 1, []) == [];
  }

  /** A property shorter than one long: the count word is read past the end. */
  lemma ParseAsWrittenShortProperty()
    ensures ParseAsWritten(4, []).None?
    ensures ParseThumbnails([]) == []
  {
  }

  /**
   * A record is read when its size word and the five words after it lie
   * inside the data and it passes the loop's own size check.
   */
  predicate RecordFits(d: seq<int>, pos: int)
  {
    0 <= pos && pos + 5 < |d| && Int32(d[pos]) <= |d| - pos
  }

  /**
   * The record loop with the bounds the layout needs: parsing stops, keeping
   * the records read so far, at the first record that does not fit.
   */
  function Records(d: seq<int>, cnt: int, i: int, pos: int, acc: seq<Thumb>): (r: seq<Thumb>)
    ensures |r| >= |acc| && r[..|acc|] == acc
    ensures |r| - |acc| <= if cnt - i > 0 then cnt - i else 0
    decreases cnt - i
  {
    if i >= cnt || !RecordFits(d, pos) then acc
    else
      var r := Records(d, cnt, i + 1, pos + 1 + Int32(d[pos]), acc + [RecordAt(d, pos)]);
      assert (acc + [RecordAt(d, pos)])[..|acc|] == acc;
      r
  }

  /** The thumbnails of a property whose complete longs are d. */
  function ParseThumbnails(d: seq<int>): (r: seq<Thumb>)
    ensures |d| >= 1 ==> |r| <= if Int32(d[0]) > 0 then Int32(d[0]) else 0
  {
    if |d| < 1 then [] else Records(d, Int32(d[0]), 0, 1, [])
  }

  /** Every record the loop visits fits. */
  predicate AllRecordsFit(d: seq<int>, cnt: int, i: int, pos: int)
    decreases cnt - i
  {
    i >= cnt || (RecordFits(d, pos) && AllRecordsFit(d, cnt, i + 1, pos + 1 + Int32(d[pos])))
  }

  /**
   * Wherever the code as written reads only inside the data, it yields the
   * thumbnails of the bounded loop; on data whose records all fit it does.
   */
  lemma {:induction false} RecordsAgree(d: seq<int>, cnt: int, i: int, pos: int, acc: seq<Thumb>)
    ensures RecordsAsWritten(d, cnt, i, pos, acc).Some? ==>
              RecordsAsWritten(d, cnt, i, pos, acc) == Some(Records(d, cnt, i, pos, acc))
    ensures AllRecordsFit(d, cnt, i, pos) ==> RecordsAsWritten(d, cnt, i, pos, acc).Some?
    decreases cnt - i
  {
    if i < cnt && 0 <= pos < |d| && Int32(d[pos]) <= |d| - pos && pos + 5 < |d| {
      RecordsAgree(d, cnt, i + 1, pos + 1 + Int32(d[pos]), acc + [RecordAt(d, pos)]);
    }
  }

  /**
   * A size word below five does not stop the loop: the record's five words
   * are read and kept whenever they lie inside the data.
   */
  lemma ShortSizeWordRead()
    ensures ParseThumbnails([1, 1, 7, 0, 0, 10, 10]) == [Thumb(7, Rect(Point(0, 0), Size(10, 10)))]
  {
    assert RecordFits([1, 1, 7, 0, 0, 10, 10], 1);
    assert Records([1, 1, 7, 0, 0, 10, 10], 1, 1, 3, [Thumb(7, Rect(Point(0, 0), Size(10, 10)))])
        == [Thumb(7, Rect(Point(0, 0), Size(10, 10)))];
  }

  /** The thumbnails of window w after w's entries were replaced by ts. */
  function WithThumbs(m: map<nat, seq<Thumb>>, w: nat, ts: seq<Thumb>): (r: map<nat, seq<Thumb>>)
    ensures w in r <==> ts != []
    ensures w in r ==> r[w] == ts
    ensures forall v :: v != w ==> (v in r <==> v in m) && (v in r ==> r[v] == m[v])
  {
    if ts == [] then m - {w} else m[w := ts]
  }

  /** Appending one thumbnail to window w's entries. */
  lemma WithThumbsSnoc(m: map<nat, seq<Thumb>>, w: nat, acc: seq<Thumb>, t: Thumb)
    requires w !in m
    ensures var cur := WithThumbs(m, w, acc);
      WithThumbs(m, w, acc + [t]) == cur[w := (if w in cur then cur[w] else []) + [t]]
  {
  }

  /** TaskbarThumbnailEffect: the thumbnails to paint, by window. */
  class TaskbarThumbnailEffect {
    /** The _KDE_WINDOW_PREVIEW atom. */
    const atom: int
    var thumbnails: map<nat, seq<Thumb>>

    constructor(atom: int)
      ensures this.atom == atom && thumbnails == map[]
    {
      this.atom := atom;
      thumbnails := map[];
    }

    /** slotWindowDeleted: all thumbnails on w go. */
    method SlotWindowDeleted(w: nat)
      modifies this`thumbnails
      ensures thumbnails == old(thumbnails) - {w}
    {
      thumbnails := thumbnails - {w};
    }

    /**
     * propertyNotify for window w (None: null) and atom a, given the
     * property's complete longs, with the bounds checks of Records. A null
     * window or another atom changes nothing; otherwise w's thumbnails
     * become those of the property.
     */
    method PropertyNotify(w: Option<nat>, a: int, d: seq<int>)
      modifies this`thumbnails
      ensures w.None? || a != atom ==> thumbnails == old(thumbnails)
      ensures w.Some? && a == atom ==> thumbnails == WithThumbs(old(thumbnails), w.value, ParseThumbnails(d))
    {
      if w.None? || a != atom {
        return;
      }
      var win := w.value;
      thumbnails := thumbnails - {win};
      if |d| < 1 {
        return;
      }
      ReadRecords(win, d);
    }

    /** The record loop of propertyNotify, appending w's thumbnails one by one. */
    method ReadRecords(win: nat, d: seq<int>)
      requires |d| >= 1 && win !in thumbnails
      modifies this`thumbnails
      ensures thumbnails == WithThumbs(old(thumbnails), win, ParseThumbnails(d))
    {
      ghost var base := thumbnails;
      ghost var acc: seq<Thumb> := [];
      var pos := 0;
      var cnt := Int32(d[0]);
      pos := pos + 1;
      var i := 0;
      while i < cnt
        invariant thumbnails == WithThumbs(base, win, acc)
        invariant Records(d, cnt, i, pos, acc) == ParseThumbnails(d)
        decreases cnt - i
      {
        if pos < 0 || pos + 5 >= |d| {
          break;
        }
        var size := Int32(d[pos]);
        if |d| - pos < size {
          break;
        }
        var t := RecordAt(d, pos);
        pos := pos + 1;
        var current := if win in thumbnails then thumbnails[win] else [];
        WithThumbsSnoc(base, win, acc, t);
        thumbnails := thumbnails[win := current + [t]];
        acc := acc + [t];
        pos := pos + size;
        i := i + 1;
      }
    }
  }
}
