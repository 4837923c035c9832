/** The part of the host's file system nginx looks at: files and symbolic links by absolute path. */
module HostFs {
  import opened Text
  import opened Paths

  datatype Node = File(data: string) | Symlink(target: string)
  type Fs = map<string, Node>

  /** The kernel gives up after this many links. */
  const MAX_LINKS: nat := 40

  /** What reading `p` yields after following links: the file's bytes, or nothing. */
  function Resolve(fs: Fs, p: string, links: nat): Option<string>
    decreases links
  {
    if p !in fs then None
    else match fs[p]
      case File(data) => Some(data)
      case Symlink(t) => if links == 0 then None else Resolve(fs, t, links - 1)
  }

  /** The path a write to `p` lands on. */
  function Final(fs: Fs, p: string, links: nat): Option<string>
    decreases links
  {
    if p in fs && fs[p].Symlink? then
      if links == 0 then None else Final(fs, fs[p].target, links - 1)
    else Some(p)
  }

  predicate Enabled(p: string) { HasPrefix(p, SITES_ENABLED) }

  type View = map<string, Option<string>>

  /** Everything `nginx -t` reads: each entry of sites-enabled with the bytes it resolves to. */
  function ViewOf(fs: Fs): View {
    map p | p in fs && Enabled(p) :: Resolve(fs, p, MAX_LINKS)
  }

  /** The three paths one vhost swap touches. */
  predicate Managed(d: string, p: string) {
    p == NginxSiteFile(d) || p == NginxStagingFile(d) || p == NginxSiteLink(d)
  }

  /** Only the site's own link may point at the site's files. */
  ghost predicate Private(fs: Fs, d: string) {
    forall p :: p in fs && fs[p].Symlink? && Managed(d, fs[p].target) ==> p == NginxSiteLink(d)
  }

  ghost predicate SameOutside(a: Fs, b: Fs, d: string) {
    forall p :: !Managed(d, p) ==> (p in a <==> p in b) && (p in a ==> a[p] == b[p])
  }

  /** Paths that do not pass through a site's files read the same while that site is swapped. */
  lemma {:induction false} ResolveFrame(a: Fs, b: Fs, d: string, p: string, links: nat)
    requires SameOutside(a, b, d) && Private(a, d) && !Managed(d, p)
    ensures Resolve(a, p, links) == Resolve(b, p, links)
    decreases links
  {
    if p in a && a[p].Symlink? && links > 0 {
      ResolveFrame(a, b, d, a[p].target, links - 1);
    }
  }

  lemma EnabledPaths(d: string)
    ensures Enabled(NginxSiteLink(d))
    ensures !Enabled(NginxSiteFile(d)) && !Enabled(NginxStagingFile(d))
  {
    var l := NginxSiteLink(d);
    assert l == SITES_ENABLED + (d + ".conf");
    assert NginxSiteFile(d)[17] == 'a' && NginxStagingFile(d)[17] == 'a' && SITES_ENABLED[17] == 'e';
  }
}
