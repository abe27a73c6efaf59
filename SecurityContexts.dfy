/** Spring Security's per-request security context and its holder. */
module SecurityContexts {
  import opened Wrappers
  import opened UserDetailsService

  /** A `UsernamePasswordAuthenticationToken` with the loaded user as principal and no credentials. */
  datatype Authentication = UsernamePasswordAuthenticationToken(principal: UserDetails)

  datatype SecurityContext = SecurityContext(authentication: Option<Authentication>)

  /** `createEmptyContext`; also what the holder reads as after `clearContext`. */
  const EmptyContext := SecurityContext(None)

  /** The holder of the current request's context (thread-local in Spring, one per request here). */
  class SecurityContextHolder {
    var context: SecurityContext

    constructor ()
      ensures context == EmptyContext
    {
      context := EmptyContext;
    }

    method SetContext(c: SecurityContext)
      modifies this
      ensures context == c
    {
      context := c;
    }

    method ClearContext()
      modifies this
      ensures context == EmptyContext
    {
      context := EmptyContext;
    }
  }
}
