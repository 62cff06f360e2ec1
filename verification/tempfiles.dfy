/** The part of the file system the extraction code touches: the temporary
    files that exist, each with its bytes. `tempfile.NamedTemporaryFile`,
    writing, `os.path.exists`, `os.unlink` and reading back are its
    operations. */
module TempFiles {
  import opened Common
  import opened Strings
  import opened Codecs

  /** The name `NamedTemporaryFile` makes is "tmp", eight random characters
      and the suffix it is given. */
  const TempStemLength := 11

  /** The longest file name, in bytes, that one path component may have. */
  const NameMax := 255

  /** Whether `NamedTemporaryFile(suffix=suffix)` can create its file in the
      temporary directory: the suffix must not hold a NUL or a "/" (which
      would make the name a path through a directory that does not exist),
      and the whole name, in UTF-8, must fit in one component. */
  predicate SuffixUsable(suffix: string)
  {
    '\0' !in suffix && '/' !in suffix && TempStemLength + |EncodeUtf8(suffix)| <= NameMax
  }

  function NoSuchFile(path: string): string
  {
    "[Errno 2] No such file or directory: '" + path + "'"
  }

  function NameTooLong(path: string): string
  {
    "[Errno 36] File name too long: '" + path + "'"
  }

  /** The message of the exception raised when the file cannot be created at
      `path`: a NUL is refused before the system is asked; a name whose
      first component is too long is refused by the system as such; any
      other "/" leads through a directory that does not exist. */
  function CreateError(path: string, suffix: string): string
  {
    if '\0' in suffix then "embedded null byte"
    else if TempStemLength + |EncodeUtf8(Split(suffix, '/')[0])| > NameMax then NameTooLong(path)
    else NoSuchFile(path)
  }

  /** UTF-8 spends one to four bytes on every character. */
  lemma {:induction false} EncodeUtf8Length(s: string)
    ensures |s| <= |EncodeUtf8(s)| <= 4 * |s|
  {
    if s != [] {
      EncodeUtf8Length(s[1..]);
    }
  }

  /** Every name of at most 61 characters without a NUL or a "/" can be a
      suffix: even at four bytes a character it fits. */
  lemma ShortNamesUsable(suffix: string)
    requires '\0' !in suffix && '/' !in suffix && |suffix| <= 61
    ensures SuffixUsable(suffix)
  {
    EncodeUtf8Length(suffix);
  }

  /** Which upload names cannot serve as a suffix: any with a "/", and any
      too long for the name to fit, whatever its characters. Creating with
      a name that holds a "/" but no NUL, and whose part before the first
      "/" is short, fails as a missing directory. */
  lemma UnusableSuffixes(suffix: string)
    ensures '/' in suffix ==> !SuffixUsable(suffix)
    ensures |suffix| > NameMax - TempStemLength ==> !SuffixUsable(suffix)
    ensures '/' in suffix && '\0' !in suffix && |suffix| <= 61 ==>
              forall path :: CreateError(path, suffix) == NoSuchFile(path)
  {
    EncodeUtf8Length(suffix);
    SplitHead(suffix, '/');
    EncodeUtf8Length(Split(suffix, '/')[0]);
  }

  class FileSystem {
    /** The live files: path to contents. */
    var files: map<string, seq<byte>>

    constructor (initial: map<string, seq<byte>>)
      ensures files == initial
    {
      files := initial;
    }

    /** `NamedTemporaryFile(delete=False, suffix=suffix)`: a new empty file
        at a path that was not in use (the library picks a fresh random
        name), or, when the suffix makes that impossible, the message of
        the exception it raises and no new file. */
    method CreateTemp(path: string, suffix: string) returns (err: Option<string>)
      requires path !in files
      modifies this
      ensures SuffixUsable(suffix) ==> err == None && files == old(files)[path := []]
      ensures !SuffixUsable(suffix) ==> err == Some(CreateError(path, suffix)) && files == old(files)
    {
      if SuffixUsable(suffix) {
        files := files[path := []];
        err := None;
      } else {
        err := Some(CreateError(path, suffix));
      }
    }

    /** `tmp_file.write(content)` on the freshly created file. */
    method Write(path: string, data: seq<byte>)
      requires path in files
      modifies this
      ensures files == old(files)[path := data]
    {
      files := files[path := data];
    }

    /** `os.path.exists(path)`. */
    predicate Exists(path: string)
      reads this
    {
      path in files
    }

    /** `os.unlink(path)`: the file is gone, nothing else changes. */
    method Unlink(path: string)
      requires path in files
      modifies this
      ensures files == old(files) - {path}
    {
      files := files - {path};
    }

    /** Reading the whole file back: its bytes, or the error Python raises
        for a missing file. */
    function Read(path: string): (r: LibOutcome<seq<byte>>)
      reads this
      ensures path in files ==> r == Produced(files[path])
      ensures path !in files ==> r.Raised?
    {
      if path in files then Produced(files[path])
      else Raised(NoSuchFile(path))
    }
  }

  /** Creating a file at an unused path and unlinking it leaves the files as
      they were. */
  lemma CreateUnlinkRestores(m: map<string, seq<byte>>, path: string)
    requires path !in m
    ensures m[path := []] - {path} == m
  {
  }

  /** Creating a file at an unused path, writing it and unlinking it leaves
      the files as they were. */
  lemma CreateWriteUnlinkRestores(m: map<string, seq<byte>>, path: string, data: seq<byte>)
    requires path !in m
    ensures m[path := []][path := data] - {path} == m
  {
  }
}
