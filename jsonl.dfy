/** `createJsonlWriter`: the writer closure and the stream it writes to,
    as a class. The closure's `isFirst` flag is a field, and so is what the
    stream has received. */
module Jsonl {

  /** The elements joined with `"\n"`, with no newline after the last. */
  function Join(items: seq<string>): string
    decreases |items|
  {
    if items == [] then ""
    else if |items| == 1 then items[0]
    else items[0] + "\n" + Join(items[1..])
  }

  /** Appending one element to a joined list adds one separator, unless the
      list was empty, then the element. */
  lemma {:induction false} JoinSnoc(items: seq<string>, x: string)
    ensures Join(items + [x]) == Join(items) + (if items == [] then "" else "\n") + x
    decreases |items|
  {
    if |items| >= 2 {
      assert (items + [x])[1..] == items[1..] + [x];
      JoinSnoc(items[1..], x);
    } else if |items| == 1 {
      assert (items + [x])[1..] == [x];
    }
  }

  /** The joined text ends with the last element: there is no trailing
      newline. */
  lemma {:induction false} JoinEndsWithLast(items: seq<string>)
    requires items != []
    ensures |Join(items)| >= |items[|items| - 1]|
    ensures Join(items)[|Join(items)| - |items[|items| - 1]|..] == items[|items| - 1]
    decreases |items|
  {
    if |items| > 1 {
      JoinEndsWithLast(items[1..]);
      var rest := Join(items[1..]);
      assert Join(items) == (items[0] + "\n") + rest;
      assert Join(items)[|Join(items)| - |rest|..] == rest;
    }
  }

  class JsonlWriter {
    /** The closure's flag: no element written yet. */
    var isFirst: bool
    /** Everything the output stream has received. */
    var output: string
    /** The elements written so far. */
    ghost var written: seq<string>

    ghost predicate Valid()
      reads this
    {
      output == Join(written) && isFirst == (written == [])
    }

    constructor ()
      ensures Valid() && written == [] && output == ""
    {
      isFirst := true;
      output := "";
      written := [];
    }

    /** One call of the writer: a newline unless this is the first element,
        then the element. */
    method Write(data: string)
      requires Valid()
      modifies this
      ensures Valid() && written == old(written) + [data]
      ensures output == old(output) + (if old(isFirst) then "" else "\n") + data
      ensures !isFirst
    {
      if isFirst == false {
        output := output + "\n";
      }
      output := output + data;
      JoinSnoc(written, data);
      written := written + [data];
      isFirst := false;
    }
  }
}
