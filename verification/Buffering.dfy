/** The write buffer in front of the database file. */
module Buffering {
  import opened StorageFormat
  import opened Writers

  const WRITE_BUFFER_SIZE: nat := 4096

  /** The bytes already written to the descriptor, and those that wait in the buffer. */
  datatype Stream = Stream(file: seq<byte>, buffer: seq<byte>)
  {
    function All(): seq<byte> {
      file + buffer
    }
  }

  function Written(s: Stream, data: seq<byte>): Stream {
    if |s.buffer| + |data| <= WRITE_BUFFER_SIZE then Stream(s.file, s.buffer + data)
    else if |data| > WRITE_BUFFER_SIZE / 2 then Stream(s.file + s.buffer + data, [])
    else Stream(s.file + s.buffer, data)
  }

  function Synced(s: Stream): Stream {
    Stream(s.file + s.buffer, [])
  }

  /** No byte is lost, repeated or reordered, what is in the file stays there, and the buffer
      keeps to its size. */
  lemma WrittenKeeps(s: Stream, data: seq<byte>)
    requires |s.buffer| <= WRITE_BUFFER_SIZE
    ensures Written(s, data).All() == s.All() + data
    ensures s.file <= Written(s, data).file && |Written(s, data).buffer| <= WRITE_BUFFER_SIZE
  {
    assert s.file + (s.buffer + data) == s.file + s.buffer + data;
  }

  /** A Writer used as a buffer, with the descriptor it is flushed to. */
  class Output {
    const writer: Writer
    var file: seq<byte>

    ghost predicate Valid()
      reads this, writer, writer.data
    {
      writer.Valid() && writer.begin == writer.ptr && writer.depth == 0
    }

    ghost function Contents(): Stream
      requires Valid()
      reads this, writer, writer.data
    {
      Stream(file, writer.Finished())
    }

    constructor ()
      ensures Valid() && fresh(writer) && fresh(writer.data) && Contents() == Stream([], [])
    {
      writer := new Writer();
      file := [];
    }

    method Flush()
      requires Valid()
      modifies this, writer`begin, writer`ptr
      ensures Valid() && Contents() == Synced(old(Contents()))
    {
      var waiting := writer.Output();
      file := file + waiting;
      writer.Discard();
    }

    method BufferedWrite(data: seq<byte>)
      requires Valid()
      modifies this, writer, writer.data
      ensures Valid() && (writer.data == old(writer.data) || fresh(writer.data))
      ensures Contents() == Written(old(Contents()), data)
    {
      var waiting := writer.Output();
      if |waiting| + |data| <= WRITE_BUFFER_SIZE {
        if data != [] {
          writer.DirectWrite(data);
        }
      } else {
        Flush();
        if |data| > WRITE_BUFFER_SIZE / 2 {
          file := file + data;
        } else if data != [] {
          writer.DirectWrite(data);
        }
      }
    }

    method BufferedSync()
      requires Valid()
      modifies this, writer`begin, writer`ptr
      ensures Valid() && Contents() == Synced(old(Contents()))
    {
      var waiting := writer.Output();
      if waiting != [] {
        Flush();
      }
    }
  }
}
