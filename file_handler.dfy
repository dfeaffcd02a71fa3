/**
 * FileHandler (utils/file_handler.py): upload validation, file removal and
 * filename sanitising.  Whether a file exists and its size are inputs: the
 * file system value and a size function.
 */
module FileHandler {
  import opened Results
  import opened Text
  import opened Os

  /** The default `max_size`: 50 MiB. */
  const DefaultMaxSize := 50 * 1024 * 1024

  const MissingFile := "File does not exist"
  const PdfExtension := ".pdf"

  datatype FileInfo = FileInfo(name: string, size: nat, extension: string)

  /** The result dictionary of validate_file; an empty `file_info` is None. */
  datatype Validation = Validation(valid: bool, errors: seq<string>, fileInfo: Option<FileInfo>)

  function SizeError(size: nat, maxSize: int): string {
    "File too large: " + NatToString(size) + " bytes (max: " + IntToString(maxSize) + ")"
  }

  function TypeError(extension: string): string {
    "Invalid file type: " + extension + " (only PDF allowed)"
  }

  /** validate_file: every check that fails adds its error, size first, and the file is valid when none does. */
  method ValidateFile(fs: FileSystem, sizeOf: string -> nat, filePath: string, maxSize: int) returns (v: Validation)
    ensures v.valid <==> v.errors == []
    ensures filePath !in fs.files ==> v == Validation(false, [MissingFile], None)
    ensures filePath in fs.files ==>
              var name := Basename(filePath);
              var ext := Lower(Extension(name));
              v.fileInfo == Some(FileInfo(name, sizeOf(filePath), ext))
              && v.errors == (if sizeOf(filePath) > maxSize then [SizeError(sizeOf(filePath), maxSize)] else [])
                             + (if ext != PdfExtension then [TypeError(ext)] else [])
  {
    var valid: bool, errors: seq<string> := true, [];
    if filePath !in fs.files {
      valid, errors := false, errors + [MissingFile];
      return Validation(valid, errors, None);
    }
    var fileSize := sizeOf(filePath);
    var fileName := Basename(filePath);
    var fileExt := Lower(Extension(fileName));
    var info := FileInfo(fileName, fileSize, fileExt);
    if fileSize > maxSize {
      valid, errors := false, errors + [SizeError(fileSize, maxSize)];
    }
    if fileExt != PdfExtension {
      valid, errors := false, errors + [TypeError(fileExt)];
    }
    v := Validation(valid, errors, Some(info));
  }

  /** The two errors are told apart by their text. */
  lemma ErrorsDistinct(size: nat, maxSize: int, extension: string)
    ensures SizeError(size, maxSize) != TypeError(extension)
    ensures SizeError(size, maxSize) != MissingFile && TypeError(extension) != MissingFile
  {
    assert SizeError(size, maxSize)[0] == 'F' && TypeError(extension)[0] == 'I';
    assert SizeError(size, maxSize)[5] == 't' && MissingFile[5] == 'd';
  }

  /** cleanup_file: true exactly when the file existed and was removed; it never raises. */
  method CleanupFile(fs: FileSystem, filePath: string) returns (removed: bool, fs': FileSystem)
    ensures removed <==> filePath in fs.files && filePath !in fs.locked
    ensures fs' == if removed then fs.(files := fs.files - {filePath}) else fs
  {
    removed, fs' := false, fs;
    if filePath in fs.files {
      var r := Remove(fs, filePath);
      if r.Ok? {
        removed, fs' := true, r.value;
      }
    }
  }

  /** The characters `[\w\-_\.]` lets through. */
  predicate SafeChar(c: char) {
    IsWordChar(c) || c == '-' || c == '.'
  }

  /** get_safe_filename: every character outside the allowed class becomes an underscore. */
  function SafeFilename(filename: string): (r: string)
    ensures |r| == |filename|
    ensures forall i :: 0 <= i < |r| ==> SafeChar(r[i])
    ensures forall i :: 0 <= i < |r| ==> r[i] == if SafeChar(filename[i]) then filename[i] else '_'
  {
    if filename == [] then ""
    else [if SafeChar(filename[0]) then filename[0] else '_'] + SafeFilename(filename[1..])
  }

  /** A name made of allowed characters only is left as it is. */
  lemma {:induction false} SafeFilenameKeepsSafe(filename: string)
    requires forall i :: 0 <= i < |filename| ==> SafeChar(filename[i])
    ensures SafeFilename(filename) == filename
  {
    if filename != [] {
      var t := filename[1..];
      forall i | 0 <= i < |t| ensures SafeChar(t[i]) {
        assert t[i] == filename[i + 1];
      }
      SafeFilenameKeepsSafe(t);
    }
  }

  /** Sanitising twice is sanitising once. */
  lemma SafeFilenameIdempotent(filename: string)
    ensures SafeFilename(SafeFilename(filename)) == SafeFilename(filename)
  {
    SafeFilenameKeepsSafe(SafeFilename(filename));
  }
}
