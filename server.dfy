/**
 * The session layer of server/server.cpp: a Game relays the moves of its two
 * players to the engine and answers them, a Client joins one game, and the
 * Server pairs connections through a single waiting slot. Each operation
 * returns the socket writes it makes, in order, as its outbox; the epoll loop
 * and the reads are not part of this model.
 */
module Session {
  import opened Pieces
  import opened Rules
  import opened RuleFacts
  import opened Engine
  import opened CInt

  /** One write(2): the descriptor and the text; the terminating NUL the source also sends is implied. */
  datatype Message = Message(fd: int32, text: string)

  /** Game::send(response): the text to both players, the first one first. */
  function Broadcast(players: seq<int32>, text: string): (m: seq<Message>)
    requires |players| == 2
    ensures |m| == 2 && m[0] == Message(players[0], text) && m[1] == Message(players[1], text)
  {
    [Message(players[0], text), Message(players[1], text)]
  }

  /**
   * The switch of accept_move: an outcome of 0, 1 or 2 is broadcast as the
   * move itself, any other outcome earns the mover alone "invalid move".
   */
  function Reply(players: seq<int32>, fd: int32, move: string, code: int): (m: seq<Message>)
    requires |players| == 2
    ensures code in {0, 1, 2} ==> m == Broadcast(players, move)
    ensures code !in {0, 1, 2} ==> m == [Message(fd, "invalid move")]
  {
    if code == 0 || code == 1 || code == 2 then Broadcast(players, move) else [Message(fd, "invalid move")]
  }

  /** A rejected move is answered to its sender only, an accepted one reaches both players. */
  lemma ReplyRecipients(players: seq<int32>, fd: int32, move: string, code: int)
    requires |players| == 2
    ensures code < 0 ==> forall m <- Reply(players, fd, move, code) :: m.fd == fd && m.text == "invalid move"
    ensures code in {Accepted, Promotion} ==>
      (forall m <- Reply(players, fd, move, code) :: m.text == move) &&
      (forall p <- players :: Message(p, move) in Reply(players, fd, move, code))
  {
  }

  /** class Game: the two players' descriptors and their engine. */
  class Game {
    var players: seq<int32>
    var chess: Chess?

    /** Game(): no players yet; the engine is set up by setup(). */
    constructor ()
      ensures players == [] && chess == null
    {
      players := [];
      chess := null;
    }

    /** Game::add: m_players.push_back(fd). */
    method Add(fd: int32)
      modifies this
      ensures players == old(players) + [fd] && chess == old(chess)
    {
      players := players + [fd];
    }

    /** Game::setup: a new engine in the starting position, "setup" to both, "your turn" to the side to move. */
    method Setup() returns (out: seq<Message>)
      requires |players| == 2
      modifies this
      ensures players == old(players)
      ensures chess != null && fresh(chess) && fresh(chess.board) && fresh(chess.board.squares)
      ensures chess.Valid() && chess.State() == InitialState()
      ensures out == Broadcast(players, "setup") + [Message(players[chess.turn.Code()], "your turn")]
    {
      chess := new Chess.Setup();
      var active := players[chess.turn.Code()];
      out := Broadcast(players, "setup") + [Message(active, "your turn")];
    }

    /**
     * Game::accept_move: a sender who is not the side to move is told so and
     * nothing else happens; otherwise the engine takes the move, the reply
     * goes out, and "your turn" goes to whoever is to move afterwards.
     */
    method AcceptMove(fd: int32, move: string) returns (out: seq<Message>)
      requires |players| == 2 && chess != null && chess.Valid()
      modifies chess, chess.board.squares
      ensures chess.Valid()
      ensures fd != players[old(chess.turn).Code()] ==>
        chess.State() == old(chess.State()) && out == [Message(fd, "not your turn")]
      ensures fd == players[old(chess.turn).Code()] ==>
        var r := Rules.EnterMove(old(chess.State()), move);
        chess.State() == r.1 &&
        out == Reply(players, fd, move, r.0) + [Message(players[r.1.turn.Code()], "your turn")]
    {
      var active := players[chess.turn.Code()];
      if fd != active {
        return [Message(fd, "not your turn")];
      }
      var code := chess.EnterMove(move);
      var next := players[chess.turn.Code()];
      out := Reply(players, fd, move, code) + [Message(next, "your turn")];
    }

    /** Game::other: m_players[0] ^ m_players[1] ^ fd, the partner of either player. */
    function Other(fd: int32): (r: int32)
      reads this
      requires |players| == 2
      ensures fd == players[0] ==> r == players[1]
      ensures fd == players[1] ==> r == players[0]
    {
      XorCancels(players[0], players[1]);
      XorCancels(players[1], players[0]);
      Xor(Xor(players[0], players[1]), fd)
    }
  }

  /** class Client: a connection and the game it plays in. */
  class Client {
    const fd: int32
    var game: Game?

    /** Client(fd); the source leaves m_game unset until join_game, here it is null. */
    constructor (fd: int32)
      ensures this.fd == fd && game == null
    {
      this.fd := fd;
      game := null;
    }

    /** Client::join_game: the client's descriptor added to the game's players. */
    method JoinGame(g: Game)
      modifies this, g
      ensures game == g && g.players == old(g.players) + [fd] && g.chess == old(g.chess)
    {
      g.Add(fd);
      game := g;
    }
  }

  /** The size of m_clients: descriptors from 32 on are turned away. */
  const MaxClients := 32

  /** class Server: the client table indexed by descriptor, the games, and the client waiting for a partner. */
  class Server {
    const clients: array<Client?>
    var games: seq<Game>
    var waiting: Client?

    ghost predicate Valid()
      reads this
    {
      clients.Length == MaxClients
    }

    /** Server(): no client waiting and every slot of the table empty. */
    constructor ()
      ensures Valid() && fresh(clients) && games == [] && waiting == null
      ensures forall i :: 0 <= i < MaxClients ==> clients[i] == null
    {
      clients := new Client?[MaxClients](_ => null);
      games := [];
      waiting := null;
    }

    /**
     * Server::on_connect: a descriptor beyond the table is told the server
     * is full; otherwise the newcomer waits, or, if someone is waiting
     * already, the two start a new game with the one who waited first.
     */
    method OnConnect(fd: int32) returns (out: seq<Message>)
      requires Valid() && fd >= 0
      modifies this, clients, waiting
      ensures Valid()
      ensures fd >= MaxClients as int32 ==>
        out == [Message(fd, "server is full")] &&
        clients[..] == old(clients[..]) && games == old(games) && waiting == old(waiting)
      ensures fd < MaxClients as int32 ==>
        clients[fd] != null && fresh(clients[fd]) && clients[fd].fd == fd &&
        clients[..] == old(clients[..])[fd := clients[fd]]
      ensures fd < MaxClients as int32 && old(waiting) == null ==>
        waiting == clients[fd] && waiting.game == null && games == old(games) && out == []
      ensures fd < MaxClients as int32 && old(waiting) != null ==>
        waiting == null && |games| == |old(games)| + 1 && games[..|old(games)|] == old(games) &&
        var g := games[|old(games)|];
        fresh(g) && g.players == [old(waiting).fd, fd] && old(waiting).game == g && clients[fd].game == g &&
        g.chess != null && g.chess.Valid() && g.chess.State() == InitialState() &&
        out == [Message(old(waiting).fd, "setup"), Message(fd, "setup"), Message(fd, "your turn")]
    {
      out := [];
      if fd >= MaxClients as int32 {
        return [Message(fd, "server is full")];
      }
      var client := new Client(fd);
      clients[fd] := client;
      if waiting == null {
        waiting := client;
        return;
      }
      var game := new Game();
      waiting.JoinGame(game);
      client.JoinGame(game);
      games := games + [game];
      // on_connect clears m_waiting after setup(); setup() does not read it, so the order is immaterial
      waiting := null;
      out := game.Setup();
    }
  }
}
