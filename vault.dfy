/** The host application's notes, as plain values: a note file, its cached
    frontmatter and the folder tree of the vault. */
module Vault {
  import opened Results

  /** A note file: its vault path, its display name and its modification
      time in milliseconds. */
  datatype NoteFile = NoteFile(path: string, basename: string, mtime: int)

  /** A frontmatter field value as the YAML parser hands it over. */
  datatype FieldValue = Num(n: int) | Str(s: string) | Bool(b: bool) | Null

  type Frontmatter = map<string, FieldValue>

  /** The host's metadata cache: the parsed frontmatter of each note that
      has one, keyed by the note's path. */
  type MetadataCache = map<string, Frontmatter>

  /** `metadataCache.getFileCache(file)?.frontmatter`. */
  function CachedFrontmatter(cache: MetadataCache, file: NoteFile): Option<Frontmatter>
  {
    if file.path in cache then Some(cache[file.path]) else None
  }

  /** A vault entry: a note file, or a folder with its children in the
      order the host lists them. */
  datatype Node = FileNode(file: NoteFile) | Folder(path: string, children: seq<Node>)
}
