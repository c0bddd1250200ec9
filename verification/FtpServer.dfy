/** The vehicle's side of the protocol: writes at offsets, replays its last reply to a repeated request. */
module FtpServer {
  import opened Wrappers
  import opened Bytes
  import opened FtpProtocol
  import Listing

  type Path = seq<U8>

  datatype Server = Server(
    files: map<Path, seq<U8>>,
    listings: map<Path, seq<seq<U8>>>,
    sessions: map<U8, Path>,
    last: Option<(U16, FtpPayload)>)

  /** What the server is free to decide: a refusal, a session number, a page length. */
  datatype Choice = Refuse(code: U8) | Proceed(session: U8, count: nat)

  function AckReply(req: FtpPayload, session: U8, data: seq<U8>): FtpPayload
    requires |data| <= FTP_DATA_MAX_LEN
  {
    FtpPayload(Add16(req.seqNumber, 1), session, ACK, |data|, req.opcode, 0, req.offset, data)
  }

  function NakReply(req: FtpPayload, code: U8): FtpPayload {
    FtpPayload(Add16(req.seqNumber, 1), req.session, NAK, 1, req.opcode, 0, req.offset, [code])
  }

  /** The page of a listing the server returns for an offset, when it is one it may return. */
  predicate LegalPage(listing: seq<seq<U8>>, offset: nat, count: nat) {
    && 1 <= count && offset + count <= |listing|
    && |Listing.Join(listing[offset..offset + count])| <= FTP_DATA_MAX_LEN
  }

  /** Executes one request once: the new state and the reply. */
  function Execute(srv: Server, req: FtpPayload, choice: Choice): (Server, FtpPayload) {
    match choice
    case Refuse(code) => (srv, NakReply(req, if code == EOF then FAIL else code))
    case Proceed(session, count) =>
      if req.opcode == RESET_SESSIONS then (srv.(sessions := map[]), AckReply(req, 0, []))
      else if req.opcode == TERMINATE_SESSION then
        if req.session !in srv.sessions then (srv, NakReply(req, INVALID_SESSION))
        else (srv.(sessions := srv.sessions - {req.session}), AckReply(req, req.session, []))
      else if req.opcode == CREATE_FILE then
        (srv.(files := srv.files[req.data := []], sessions := srv.sessions[session := req.data]),
         AckReply(req, session, []))
      else if req.opcode == OPEN_FILE_RO then
        if req.data !in srv.files then (srv, NakReply(req, FILE_NOT_FOUND))
        else
          (srv.(sessions := srv.sessions[session := req.data]),
           AckReply(req, session, Le32(|srv.files[req.data]| % 0x1_0000_0000)))
      else if req.opcode == WRITE_FILE then
        if req.session !in srv.sessions || srv.sessions[req.session] !in srv.files
        then (srv, NakReply(req, INVALID_SESSION))
        else
          var path := srv.sessions[req.session];
          (srv.(files := srv.files[path := Overwrite(srv.files[path], req.offset, req.data)]),
           AckReply(req, req.session, []))
      else if req.opcode == READ_FILE then
        if req.session !in srv.sessions || srv.sessions[req.session] !in srv.files
        then (srv, NakReply(req, INVALID_SESSION))
        else
          var file := srv.files[srv.sessions[req.session]];
          if req.offset >= |file| then (srv, NakReply(req, EOF))
          else
            var n := Min(Min(req.size, FTP_DATA_MAX_LEN), |file| - req.offset);
            (srv, AckReply(req, req.session, file[req.offset..req.offset + n]))
      else if req.opcode == LIST_DIRECTORY then
        if req.data !in srv.listings then (srv, NakReply(req, FILE_NOT_FOUND))
        else
          var listing := srv.listings[req.data];
          if req.offset >= |listing| then (srv, NakReply(req, EOF))
          else if LegalPage(listing, req.offset, count)
          then (srv, AckReply(req, 0, Listing.Join(listing[req.offset..req.offset + count])))
          else (srv, NakReply(req, FAIL))
      else (srv, NakReply(req, UNKNOWN_COMMAND))
  }

  predicate JustServed(srv: Server, seqNumber: U16) {
    srv.last.Some? && srv.last.value.0 == seqNumber
  }

  /** Serves a request that arrives: a repeat of the last one only gets the last reply again. */
  function Serve(srv: Server, req: FtpPayload, choice: Choice): (Server, FtpPayload) {
    if JustServed(srv, req.seqNumber) then (srv, srv.last.value.1)
    else
      var (after, reply) := Execute(srv, req, choice);
      (after.(last := Some((req.seqNumber, reply))), reply)
  }

  /** The remembered reply answers the remembered request. */
  predicate Sane(srv: Server) {
    srv.last.Some? ==>
      && WellFormed(srv.last.value.1)
      && srv.last.value.1.seqNumber == Add16(srv.last.value.0, 1)
      && (srv.last.value.1.opcode == ACK || srv.last.value.1.opcode == NAK)
  }

  lemma ServeAnswers(srv: Server, req: FtpPayload, choice: Choice)
    requires Sane(srv)
    ensures var (after, reply) := Serve(srv, req, choice);
            && Sane(after) && JustServed(after, req.seqNumber) && after.listings == srv.listings
            && after.last.value.1 == reply
            && WellFormed(reply)
            && reply.seqNumber == Add16(req.seqNumber, 1)
            && (reply.opcode == ACK || reply.opcode == NAK)
  {
  }
}
