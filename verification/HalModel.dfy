/** The hardware abstraction layer and the file system under the permission manager: memory blocks,
    the mutex and the permission files. Every operation that can fail on a device fails here
    nondeterministically, unless the HAL is `reliable`. */
module HalModel {
  import opened Common
  import opened PmsTypes
  import opened PermissionCodec
  import opened PmsModel

  /** A heap block holding one value, such as a string buffer. */
  class Block<T> {
    var value: T

    constructor (value: T)
      ensures this.value == value
    {
      this.value := value;
    }
  }

  class Hal {
    const config: Config
    /** Allocations and file accesses never fail. */
    const reliable: bool
    var files: Files
    var locked: bool
    /** The blocks allocated and not yet freed. */
    ghost var live: set<object>

    constructor (config: Config, reliable: bool, files: Files)
      ensures this.config == config && this.reliable == reliable && this.files == files
      ensures !locked && live == {}
    {
      this.config, this.reliable, this.files := config, reliable, files;
      locked, live := false, {};
    }

    /** HalMalloc: `block` is the memory to hand out. */
    method Malloc(block: object) returns (ok: bool)
      requires block !in live
      modifies this`live
      ensures live == if ok then old(live) + {block} else old(live)
      ensures reliable ==> ok
    {
      ok := *;
      ok := ok || reliable;
      if ok {
        live := live + {block};
      }
    }

    /** HalFree: a block may be freed only while it is live, so never twice. */
    method Free(block: object?)
      requires block == null || block in live
      modifies this`live
      ensures live == if block == null then old(live) else old(live) - {block}
    {
      if block != null {
        live := live - {block};
      }
    }

    method MutexLock()
      requires !locked
      modifies this`locked
      ensures locked
    {
      locked := true;
    }

    method MutexUnlock()
      requires locked
      modifies this`locked
      ensures !locked
    {
      locked := false;
    }

    /** HalAccess. */
    method Access(identifier: string) returns (ok: bool)
      ensures ok <==> identifier in files
    {
      ok := identifier in files;
    }

    /** stat, open and read of a whole file. */
    method ReadFile(identifier: string) returns (r: Result<FileData>)
      ensures r.Success? ==> identifier in files && r.value == files[identifier]
      ensures r.Failure? ==> r.code == STAT_FAIL || r.code == OPENFD_FAIL || r.code == READFD_FAIL
      ensures reliable && identifier in files ==> r.Success?
    {
      var fails := *;
      if identifier !in files {
        return Failure(STAT_FAIL);
      }
      if fails && !reliable {
        var opens := *;
        return Failure(if opens then READFD_FAIL else OPENFD_FAIL);
      }
      return Success(files[identifier]);
    }

    method Unlink(identifier: string) returns (ok: bool)
      modifies this`files
      ensures files == if ok then old(files) - {identifier} else old(files)
      ensures reliable && identifier in old(files) ==> ok
      ensures identifier !in old(files) ==> files == old(files)
    {
      ok := *;
      ok := (ok || reliable) && identifier in files;
      if ok {
        files := files - {identifier};
      }
    }

    /** The text of a parsed tree, cut short: it no longer parses. */
    method WriteText(identifier: string, root: Json) returns (isOpen: bool, complete: bool)
      modifies this`files
      ensures !isOpen ==> files == old(files)
      ensures isOpen ==> files == old(files)[identifier := if complete then Tree(root) else Garbage]
      ensures reliable ==> isOpen && complete
    {
      isOpen, complete := *, *;
      isOpen, complete := isOpen || reliable, complete || reliable;
      if isOpen {
        files := files[identifier := if complete then Tree(root) else Garbage];
      }
    }
  }

  /** What a failed update of one file may leave: the file as it was, gone, or unreadable. */
  ghost predicate Spoiled(files: Files, files': Files, identifier: string) {
    files' == files || files' == files - {identifier} || files' == files[identifier := Garbage]
  }
}
