/** What crosses the boundary: the request buffer Lua fills, the response a runtime hands
    back, and the values the event handler pushes for the coroutine.  A read beyond a buffer
    is `Overread`, so that every result states which bytes it depends on. */
module Replies {
  import opened CStrings

  /** A malloc'd block by its contents, or the null pointer. */
  datatype Buffer = Null | At(bytes: string)

  datatype Read = Value(text: string) | Overread

  /** Reading a C string out of a block: it needs a NUL inside the block. */
  function ReadCString(block: string): Read {
    if NUL in block then Value(BeforeNul(block)) else Overread
  }

  /** Reading `n` bytes; a negative C int becomes a huge size_t. */
  function ReadBytes(block: string, n: int): Read {
    if 0 <= n <= |block| then Value(block[..n]) else Overread
  }

  datatype LuaValue = LuaNil | LuaBool(b: bool) | LuaInt(n: int) | LuaString(s: string)

  datatype Reply = Reply(rc: int, rsp: Buffer, rspLen: int)

  datatype Pushes = Pushed(values: seq<LuaValue>) | Undefined

  /** The response as a Lua value. */
  function ResponseRead(reply: Reply): Read
    requires reply.rsp.At?
  {
    if reply.rspLen != 0 then ReadBytes(reply.rsp.bytes, reply.rspLen) else ReadCString(reply.rsp.bytes)
  }

  /** The values the handler is to leave on the coroutine's stack. */
  function HandlerPushes(reply: Reply): Pushes {
    if reply.rsp.At? && ResponseRead(reply).Overread? then Undefined else
      var response := if reply.rsp.Null? then LuaNil else LuaString(ResponseRead(reply).text);
      Pushed(if reply.rc == 0 then [LuaBool(true), response, LuaNil]
             else [LuaBool(false), LuaInt(reply.rc), response])
  }

  /** The call returns three values, whatever the runtime answered: `true, response, nil`, or
      `false, rc, response`, the response being nil for a null pointer, the measured bytes, or the
      text up to the first NUL; and nothing but a response longer than its buffer, or an
      unmeasured one without a NUL, makes it undefined. */
  lemma CallReturns(reply: Reply)
    ensures HandlerPushes(reply).Undefined? <==>
              reply.rsp.At? && (if reply.rspLen == 0 then NUL !in reply.rsp.bytes
                                else !(0 < reply.rspLen <= |reply.rsp.bytes|))
    ensures HandlerPushes(reply).Pushed? ==>
              var v := HandlerPushes(reply).values;
              && |v| == 3 && v[0] == LuaBool(reply.rc == 0)
              && (if reply.rc == 0 then v[2] == LuaNil else v[1] == LuaInt(reply.rc))
              && IsResponse(reply, if reply.rc == 0 then v[1] else v[2])
  {
  }

  ghost predicate IsResponse(reply: Reply, v: LuaValue) {
    if reply.rsp.Null? then v == LuaNil else
      && v.LuaString? && |v.s| <= |reply.rsp.bytes| && v.s == reply.rsp.bytes[..|v.s|]
      && (if reply.rspLen != 0 then |v.s| == reply.rspLen
          else NUL !in v.s && |v.s| < |reply.rsp.bytes| && reply.rsp.bytes[|v.s|] == NUL)
  }

  // ----- the echo runtimes -----

  datatype Request = NoRequest | Text(s: string)

  /** What `post` passes to C: the string with the terminator `ffi.copy` adds, and its length. */
  function RequestBuffer(req: Request): Buffer {
    if req.Text? then At(req.s + [NUL]) else Null
  }

  function RequestLength(req: Request): nat {
    if req.Text? then |req.s| else 0
  }

  /** malloc(0) may return the null pointer or an empty block. */
  predicate MallocZero(z: Buffer) {
    z == Null || z == At("")
  }

  /** The Go echo: copies `len` bytes and answers with that length. */
  function GoEcho(req: Request, z: Buffer): Reply {
    var len := RequestLength(req);
    Reply(0, if len == 0 then z else At(RequestBuffer(req).bytes[..len]), len)
  }

  /** The Rust echo: duplicates the request as a C string and answers with length 0. */
  function RustEcho(s: string): Reply {
    Reply(0, At(ReadCString(RequestBuffer(Text(s)).bytes).text + [NUL]), 0)
  }

  /** The length-carrying echo gives the coroutine its own request back, embedded NULs and
      all, exactly when the request is not empty. */
  lemma GoEchoValue(s: string, z: Buffer)
    requires MallocZero(z)
    ensures HandlerPushes(GoEcho(Text(s), z)) == Pushed([LuaBool(true), LuaString(s), LuaNil]) <==> s != ""
  {
    var got := HandlerPushes(GoEcho(Text(s), z));
    if s == "" {
      assert z.Null? ==> got.values[1] == LuaNil;
    } else {
      assert (s + [NUL])[..|s|][..|s|] == s;
    }
  }

  /** Without a request, or with an empty one, it has no bytes to give: nil comes back if malloc(0)
      gave the null pointer, and otherwise the handler reads beyond an empty block. */
  lemma GoEchoOfNothing(req: Request, z: Buffer)
    requires MallocZero(z) && (req.NoRequest? || req.s == "")
    ensures HandlerPushes(GoEcho(req, z)) == if z.Null? then Pushed([LuaBool(true), LuaNil, LuaNil]) else Undefined
  {
  }

  /** The C-string echo gives back what precedes the first NUL of the request, empty requests
      included; so the request itself exactly when it has no NUL. */
  lemma RustEchoValue(s: string)
    ensures HandlerPushes(RustEcho(s)) == Pushed([LuaBool(true), LuaString(BeforeNul(s)), LuaNil])
    ensures BeforeNul(s) == s <==> NUL !in s
  {
    var r := BeforeNul(s);
    assert BeforeNul(s + [NUL]) == r by { TerminatorAddsNothing(s); }
    assert BeforeNul(r + [NUL]) == r by {
      BeforeNulOf(r, "");
      assert r + [NUL] + "" == r + [NUL];
    }
    assert (r + [NUL])[|r|] == NUL;
    assert ReadCString(r + [NUL]) == Value(r);
  }
}
