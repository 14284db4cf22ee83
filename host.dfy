/**
 * The host's code-generation service as the injector processor uses it: it
 * creates a named output file, appends text to it and closes it. Files are
 * kept in memory as the sequence of strings appended to them; each append is
 * one opaque element (the exact newline handling of the append helper is not
 * modelled).
 */
module Host {
  import opened Symbols

  /** Where a generated file lives: its package and its simple name. */
  datatype FileKey = FileKey(packageName: string, fileName: string)

  class CodeGenerator {
    /** Every file created so far, with the strings appended to it. */
    var files: map<FileKey, seq<string>>
    /** The files whose stream has been closed. */
    var closed: set<FileKey>

    ghost predicate Valid()
      reads this
    {
      closed <= files.Keys
    }

    constructor ()
      ensures Valid()
      ensures files == map[] && closed == {}
    {
      files := map[];
      closed := {};
    }

    /** Creates an empty file; a name that was already created is refused. */
    method CreateNewFile(packageName: string, fileName: string) returns (r: Result<FileKey>)
      requires Valid()
      modifies this
      ensures Valid()
      ensures FileKey(packageName, fileName) in old(files) ==>
        r == Err(FileAlreadyExists(fileName)) && files == old(files) && closed == old(closed)
      ensures FileKey(packageName, fileName) !in old(files) ==>
        r == Ok(FileKey(packageName, fileName)) &&
        files == old(files)[FileKey(packageName, fileName) := []] && closed == old(closed)
    {
      var key := FileKey(packageName, fileName);
      if key in files {
        r := Err(FileAlreadyExists(fileName));
      } else {
        files := files[key := []];
        r := Ok(key);
      }
    }

    /** Appends one string to an open file. */
    method AppendLine(key: FileKey, text: string)
      requires Valid() && key in files && key !in closed
      modifies this
      ensures Valid()
      ensures files == old(files)[key := old(files[key]) + [text]] && closed == old(closed)
    {
      files := files[key := files[key] + [text]];
    }

    /** Closes an open file; nothing can be appended to it afterwards. */
    method Close(key: FileKey)
      requires Valid() && key in files
      modifies this
      ensures Valid()
      ensures files == old(files) && closed == old(closed) + {key}
    {
      closed := closed + {key};
    }
  }
}
