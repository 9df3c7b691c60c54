/**
 * The browser and server objects the routes and the page receive: an
 * uploaded `File` and the entries of a multipart `FormData` body.
 */
module Web {

  /** A `File`: its name, its declared MIME type (`file.type`, possibly empty) and its bytes. */
  datatype File = File(name: string, mimeType: string, content: seq<bv8>)
  {
    /** `file.size`, which equals the length of `file.arrayBuffer()`. */
    function Size(): nat
    {
      |content|
    }
  }

  /** What `formData.get(name)` returns: null, a string, or a file. */
  datatype FormEntry = Absent | Text(text: string) | Upload(file: File)

  /** A request body: one that `request.formData()` cannot read, or its named entries. */
  datatype FormRequest = Unreadable | Form(entries: map<string, FormEntry>)
  {
    /** `formData.get(name)` on a readable body. */
    function Entry(name: string): FormEntry
      requires Form?
    {
      if name in entries then entries[name] else Absent
    }
  }
}
