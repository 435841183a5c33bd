/** The file system and input streams as the signing engine sees them:
    `get_reader` (src/utils.rs), `fs::read` and `Read::read_to_end`. */
module Files {
  import opened Common

  /** A file or the standard input: its bytes, and whether reading it
      succeeds (a directory, say, opens but cannot be read). */
  datatype Node = Node(bytes: seq<byte>, readable: bool)

  datatype Fs = Fs(files: map<string, Node>, stdin: Node)

  /** `get_reader`: "-" is the standard input, anything else a file opened
      by path; opening fails only when there is no such file. */
  function GetReader(fs: Fs, input: string): (r: Result<Node>)
    ensures r.Ok? <==> input == "-" || input in fs.files
    ensures r.Ok? ==> r.value == if input == "-" then fs.stdin else fs.files[input]
    ensures !r.Ok? ==> r == Err(Io)
  {
    if input == "-" then Ok(fs.stdin)
    else if input in fs.files then Ok(fs.files[input])
    else Err(Io)
  }

  /** What `read_to_end` yields for an opened source. */
  function ReadAll(node: Node): Result<seq<byte>> {
    if node.readable then Ok(node.bytes) else Err(Io)
  }

  /** `fs::read`: the whole file, by path; "-" is an ordinary file name here. */
  function ReadFile(fs: Fs, path: string): (r: Result<seq<byte>>)
    ensures r.Ok? <==> path in fs.files && fs.files[path].readable
    ensures r.Ok? ==> r.value == fs.files[path].bytes
    ensures !r.Ok? ==> r == Err(Io)
  {
    if path in fs.files then ReadAll(fs.files[path]) else Err(Io)
  }

  /** An opened input stream (the `Box<dyn Read>` of `get_reader`). */
  class Reader {
    var pending: seq<byte>
    const readable: bool

    constructor (source: Node)
      ensures pending == source.bytes && readable == source.readable
    {
      pending := source.bytes;
      readable := source.readable;
    }

    /** `read_to_end`: everything not yet read, or an I/O error. */
    method ReadToEnd() returns (r: Result<seq<byte>>)
      modifies this
      ensures r == ReadAll(Node(old(pending), readable))
      ensures pending == if readable then [] else old(pending)
    {
      if readable {
        r := Ok(pending);
        pending := [];
      } else {
        r := Err(Io);
      }
    }
  }
}
