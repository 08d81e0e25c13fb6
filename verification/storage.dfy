/**
 * What the storage providers share: the fallback asset served in place of a
 * missing one, and what a handler reads back from the provider it created.
 */
module Storage {
  import opened Wrappers

  /**
   * `new Missing().get({domain, isDirectory})`: the fallback asset for a domain,
   * or the error it fails with. The Missing provider is not part of this model.
   */
  type Fallback = (Option<string>, bool) -> Result<seq<byte>>

  /**
   * A storage provider as a handler and the controller see it: `getFullUrl()`
   * (which may throw), `getLastModified()` and the `notFound` flag.
   */
  datatype StorageView = StorageView(fullUrl: Result<string>, lastModified: Option<Time>, notFound: bool)
}
