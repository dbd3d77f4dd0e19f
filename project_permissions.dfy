/** `AuthorOrReadOnly`, the permission class guarding projects, issues and
    comments: anyone signed in may attempt an action; reads of a visible
    object are always allowed; writes only for elevated users or the author. */
module ProjectPermissions {
  import opened Common
  import opened Api

  /** `has_permission`: the coarse check, which ignores the method. */
  function AuthorOrReadOnlyHasPermission(who: Requester, verb: Method): (r: bool)
    ensures r <==> IsAuthenticated(who)
  {
    if who.Authenticated? then true else false
  }

  /** `has_object_permission` against an object whose author field is `author`. */
  function AuthorOrReadOnlyHasObjectPermission(who: Requester, verb: Method, author: Option<UserId>): (r: bool)
    ensures IsSafe(verb) ==> r
    ensures !IsSafe(verb) ==> (r <==> IsElevated(who) || IsAuthor(who, author))
  {
    if IsSafe(verb) then true
    else if who.Authenticated? && (who.isSuperuser || who.isStaff) then true
    else who.Authenticated? && author == Some(who.id)
  }

  /** The coarse check gives the same answer for every method. */
  lemma CoarseIgnoresMethod(who: Requester, m1: Method, m2: Method)
    ensures AuthorOrReadOnlyHasPermission(who, m1) == AuthorOrReadOnlyHasPermission(who, m2)
  {
  }

  /** A non-elevated user may write exactly the objects they authored. */
  lemma PlainWriteIffAuthor(who: Requester, verb: Method, author: Option<UserId>)
    requires !IsSafe(verb) && !IsElevated(who)
    ensures AuthorOrReadOnlyHasObjectPermission(who, verb, author)
            <==> who.Authenticated? && author == Some(who.id)
  {
  }

  /** An object whose author was deleted (set to null) can be written only by
      elevated users. */
  lemma OrphanWritableOnlyByElevated(who: Requester, verb: Method)
    requires !IsSafe(verb)
    ensures AuthorOrReadOnlyHasObjectPermission(who, verb, None) <==> IsElevated(who)
  {
  }

  /** Whatever object permission a plain account gets, an elevated account gets too. */
  lemma ElevationIsMonotone(plain: Requester, elevated: Requester, verb: Method, author: Option<UserId>)
    requires plain.Authenticated? && !IsElevated(plain) && IsElevated(elevated)
    ensures AuthorOrReadOnlyHasObjectPermission(plain, verb, author)
            ==> AuthorOrReadOnlyHasObjectPermission(elevated, verb, author)
  {
  }
}
