/**
 What a process keeps in memory of a file that other processes also write, and how its saves can end. A save
 whose file has moved since this process last saw it is refused and puts the file's content into memory; any
 other refusal leaves the change in memory.
 */
module SharedFile {
  import opened Wrappers

  /** Refused before the rename, renamed but not synced, or synced. */
  datatype SaveOutcome = Refused | Unsynced | Synced

  /** Memory, the content last seen in the file, the file, and the contents a crash may bring back. */
  datatype Host<T> = Host(mem: T, seen: T, file: T, exposed: set<T>)

  /** A process that has just loaded a durable file. */
  function Start<T>(t: T): Host<T> {
    Host(t, t, t, {t})
  }

  datatype Saved<T> = Saved(host: Host<T>, ok: bool)

  function Save<T(==)>(h: Host<T>, save: SaveOutcome): Saved<T> {
    if save == Refused then Saved(h, false)
    else if h.seen != h.file then Saved(Reloaded(h), false)
    else Saved(Host(h.mem, h.mem, h.mem, if save == Synced then {h.mem} else h.exposed + {h.mem}), save == Synced)
  }

  /** Change memory, then save. */
  function Commit<T(==)>(h: Host<T>, next: T, save: SaveOutcome): Saved<T> {
    Save(h.(mem := next), save)
  }

  function Reloaded<T>(h: Host<T>): Host<T> {
    h.(mem := h.file, seen := h.file)
  }

  /** Another process renames a content in. */
  function Overwritten<T>(h: Host<T>, to: T, synced: bool): Host<T> {
    h.(file := to, exposed := if synced then {to} else h.exposed + {to})
  }

  /** A crash, and a restart on one of the exposed contents with the startup sync. */
  function Restarted<T>(h: Host<T>, to: T): Host<T> {
    if to in h.exposed then Start(to) else h
  }

  /** Memory, the file, and every content a crash may bring back. */
  function Contents<T>(h: Host<T>): set<T> {
    {h.mem, h.file} + h.exposed
  }

  /** A save before which another process may have renamed a content in. */
  datatype Writing<T> = Writing(theirs: Option<Foreign<T>>, save: SaveOutcome)

  datatype Foreign<T> = Foreign(to: T, synced: bool)

  function Met<T>(h: Host<T>, theirs: Option<Foreign<T>>): Host<T> {
    if theirs.Some? then Overwritten(h, theirs.value.to, theirs.value.synced) else h
  }

  function Written<T(==)>(h: Host<T>, next: T, w: Writing<T>): Saved<T> {
    Commit(Met(h, w.theirs), next, w.save)
  }

  /**
   How a write ends: another process's content may be in the file first; refused, the new content stays in memory
   alone; a file that moved is taken into memory in its place; renamed in, it is in memory and file, and after a
   sync nothing else can come back.
   */
  lemma WritingEnds<T>(h: Host<T>, next: T, w: Writing<T>)
    ensures var file := if w.theirs.Some? then w.theirs.value.to else h.file;
            var exposed := if w.theirs.None? then h.exposed
                           else if w.theirs.value.synced then {file} else h.exposed + {file};
            Written(h, next, w) ==
            match w.save
            case Refused => Saved(Host(next, h.seen, file, exposed), false)
            case Unsynced =>
              if h.seen != file then Saved(Host(file, file, file, exposed), false)
              else Saved(Host(next, next, next, exposed + {next}), false)
            case Synced =>
              if h.seen != file then Saved(Host(file, file, file, exposed), false)
              else Saved(Host(next, next, next, {next}), true)
  {
  }

  /** What a write can leave anywhere: the new content, another process's, or what was there. */
  lemma WrittenContents<T>(h: Host<T>, next: T, w: Writing<T>, t: T)
    requires t in Contents(Written(h, next, w).host)
    ensures t == next || t in Contents(h) || (w.theirs.Some? && t == w.theirs.value.to)
  {
  }

  /** Success is answered only when memory, the file and every exposed content are the new content. */
  lemma SuccessIsDurable<T>(h: Host<T>, next: T, save: SaveOutcome)
    ensures Commit(h, next, save).ok <==> save == Synced && h.seen == h.file
    ensures Commit(h, next, save).ok ==> Commit(h, next, save).host == Start(next)
  {
  }
}
