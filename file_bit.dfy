/** An unconflicted run of text anchored at a line (merge/file_bit.py). */
module FileBits {
  import opened Strings

  /** The state of a `FileBit`: the line of its first character and its text. */
  datatype FileBitValue = FileBitValue(lineNumber: int, text: string)
  {
    /**
     * The state after `shrink_top_down(n)` and the string it returns: the
     * first `n` lines leave the bit, and the anchor moves down past them.
     */
    function ShrunkTopDown(n: nat): (r: (FileBitValue, string))
      requires 1 <= n <= LineCount(text)
      ensures Lines(r.1) == Lines(text)[..n] && Lines(r.0.text) == Lines(text)[n..]
      ensures r.1 + r.0.text == text
      ensures LineCount(r.0.text) == LineCount(text) - n
      ensures n == LineCount(text) ==> r.0.text == ""
      ensures r.0.lineNumber == lineNumber + n
    {
      var lines := Lines(text);
      SplitAtLine(text, n);
      (FileBitValue(lineNumber + n, Join(lines[n..])), Join(lines[..n]))
    }

    /**
     * The state after `shrink_bottom_up(n)` and the string it returns: the
     * last `n` lines leave the bit, and the anchor stays.
     */
    function ShrunkBottomUp(n: nat): (r: (FileBitValue, string))
      requires 1 <= n <= LineCount(text)
      ensures Lines(r.1) == Lines(text)[LineCount(text) - n..]
      ensures Lines(r.0.text) == Lines(text)[..LineCount(text) - n]
      ensures r.0.text + r.1 == text
      ensures LineCount(r.0.text) == LineCount(text) - n
      ensures n == LineCount(text) ==> r.0.text == ""
      ensures r.0.lineNumber == lineNumber
      ensures EndsWithNewline(text) ==> EndsWithNewline(r.1)
    {
      var lines := Lines(text);
      var keep := |lines| - n;
      SplitAtLine(text, keep);
      assert EndsWithNewline(text) ==> EndsWithNewline(Join(lines[keep..])) by {
        if EndsWithNewline(text) {
          assert text == Join(lines[..keep]) + Join(lines[keep..]);
          assert Join(lines[keep..]) != [] by {
            assert Lines(Join(lines[keep..])) != [];
          }
        }
      }
      (FileBitValue(lineNumber, Join(lines[..keep])), Join(lines[keep..]))
    }
  }

  class FileBit {
    var lineNumber: int
    var text: string

    constructor(lineNumber: int, text: string)
      ensures Value() == FileBitValue(lineNumber, text)
    {
      this.lineNumber := lineNumber;
      this.text := text;
    }

    function Value(): FileBitValue
      reads this
    {
      FileBitValue(lineNumber, text)
    }

    /** `__eq__`: two bits are equal exactly when their anchors and texts are. */
    predicate Equals(other: FileBit)
      reads this, other
      ensures Equals(other) <==> Value() == other.Value()
    {
      lineNumber == other.lineNumber && text == other.text
    }

    /** `shrink_top_down(n)`; the source asserts 1 <= n <= the number of lines. */
    method ShrinkTopDown(n: nat) returns (chunk: string)
      requires 1 <= n <= LineCount(text)
      modifies this
      ensures (Value(), chunk) == old(Value()).ShrunkTopDown(n)
    {
      lineNumber := lineNumber + n;
      var lines := Lines(text);
      text := Join(lines[n..]);
      chunk := Join(lines[..n]);
    }

    /** `shrink_bottom_up(n)`; the source asserts 1 <= n <= the number of lines. */
    method ShrinkBottomUp(n: nat) returns (chunk: string)
      requires 1 <= n <= LineCount(text)
      modifies this
      ensures (Value(), chunk) == old(Value()).ShrunkBottomUp(n)
    {
      var lines := Lines(text);
      text := Join(lines[..|lines| - n]);
      chunk := Join(lines[|lines| - n..]);
    }
  }
}
