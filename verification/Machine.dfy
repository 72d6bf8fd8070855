/**
  The operating system as the vault code sees it: image files, open dm-crypt
  mappers and mounted filesystems. Each command either takes effect or fails
  and changes nothing; `Can...` says when it may succeed at all.
 */
module Machine {

  /** Image files that exist, mapper name -> image path, mount point -> mapper name. */
  datatype Os = Os(files: set<string>, mappers: map<string, string>, mounts: map<string, string>)

  /** A row of the vaults table; sizes are the subject of module Growing. */
  datatype Vault = Vault(name: string, path: string, mountPoint: string, mapperName: string)

  /** StatIn/IsUnlocked: the mapper node exists, or failing that the filesystem is mounted. */
  predicate IsMounted(os: Os, v: Vault) {
    v.mountPoint in os.mounts
  }

  predicate IsUnlocked(os: Os, v: Vault) {
    v.mapperName in os.mappers || IsMounted(os, v)
  }

  predicate CanOpen(os: Os, path: string, name: string) {
    path in os.files && name !in os.mappers
  }

  predicate CanMount(os: Os, name: string, mountPoint: string) {
    name in os.mappers && mountPoint !in os.mounts
  }

  /** luksClose is refused while a filesystem on the mapper is mounted. */
  predicate CanClose(os: Os, name: string) {
    name in os.mappers && forall mp :: mp in os.mounts ==> os.mounts[mp] != name
  }

  function AddFile(os: Os, path: string): Os {
    os.(files := os.files + {path})
  }

  function RemoveFile(os: Os, path: string): Os {
    os.(files := os.files - {path})
  }

  /** cryptsetup luksOpen. */
  function Open(os: Os, path: string, name: string): Os {
    if CanOpen(os, path, name) then os.(mappers := os.mappers[name := path]) else os
  }

  /** cryptsetup luksClose. */
  function Close(os: Os, name: string): Os {
    if CanClose(os, name) then os.(mappers := os.mappers - {name}) else os
  }

  /** mount /dev/mapper/<name> <mountPoint>. */
  function Mount(os: Os, name: string, mountPoint: string): Os {
    if CanMount(os, name, mountPoint) then os.(mounts := os.mounts[mountPoint := name]) else os
  }

  /** umount <mountPoint>. */
  function Umount(os: Os, mountPoint: string): Os {
    os.(mounts := os.mounts - {mountPoint})
  }

  /** A mounted filesystem has its mapper open, and an open mapper has its image. */
  ghost predicate Stacked(os: Os) {
    && (forall mp :: mp in os.mounts ==> os.mounts[mp] in os.mappers)
    && (forall name :: name in os.mappers ==> os.mappers[name] in os.files)
  }
}
