/** The two browser objects the bill-creation controller changes in place:
    the form's file input element and the `FormData` it fills for the upload. */
module Dom {

  /** A file chosen in the browser's file picker; only its name is used. */
  datatype File = File(name: string)

  /** A `FormData` entry value: a file is kept as a file, every other value is
      converted to a string when it is appended (`undefined` becomes
      `"undefined"`, `NaN` becomes `"NaN"`). */
  datatype FormValue = Blob(file: File) | Text(text: string)

  datatype Entry = Entry(name: string, value: FormValue)

  /** An `<input type="file">` element. Its `value` is derived from its list
      of selected files. */
  class FileInput {
    var files: seq<File>

    constructor (files: seq<File>)
      ensures this.files == files
    {
      this.files := files;
    }

    /** The `value` getter: empty without a selection, otherwise the first
        file's name behind the fixed `C:\fakepath\` prefix. */
    function Value(): (v: string)
      reads this
      ensures v == "" <==> files == []
      ensures files != [] ==> |v| >= |files[0].name| && v[|v| - |files[0].name|..] == files[0].name
    {
      if files == [] then "" else "C:\\fakepath\\" + files[0].name
    }

    /** Assigning `''` to `value`, the one assignment a file input allows:
        it empties the list of selected files. */
    method ClearValue()
      modifies this
      ensures files == [] && Value() == ""
    {
      files := [];
    }

    /** The user picks files in the browser's dialog; the browser then fires
        the `change` event. */
    method Choose(picked: seq<File>)
      modifies this
      ensures files == picked
    {
      files := picked;
    }
  }

  /** The multipart payload, built by successive `append` calls. */
  class FormData {
    var entries: seq<Entry>

    constructor ()
      ensures entries == []
    {
      entries := [];
    }

    method Append(name: string, value: FormValue)
      modifies this
      ensures entries == old(entries) + [Entry(name, value)]
    {
      entries := entries + [Entry(name, value)];
    }
  }
}
