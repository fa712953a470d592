/** The Docker open node (`NodeDocker`).

    Setup launches a detached container named `node-docker` with
    `docker run`, then starts the exec bridge (a supervised process that
    relays a TCP port to a shell in the container); teardown kills the
    container. The two `docker` commands and the bridge start are
    collaborators: their return codes are inputs.
 */
module DockerNode {
  import opened Steps
  import opened CommandLine
  import opened Options

  const DOCKER_IMAGE: string := "fitiotlab/iot-lab/iot-lab-jupyterlab"
  const CONTAINER_NAME: string := "node-docker"

  /** `docker run -ti --rm -d --name node-docker -h {host} {image} bash` */
  const DOCKER_RUN_TEMPLATE: seq<Piece> :=
    [Text("docker run -ti --rm -d --name node-docker -h "), Field("host"), Text(" "),
     Field("image"), Text(" bash")]

  const DOCKER_KILL_CMD: string := "docker kill node-docker"

  /** A `NodeDocker` instance: the run command it formatted at construction. */
  datatype Node = Node(dockerCmd: string)

  /** The constructor fills the run template with the board's hostname and
      the fixed image. */
  function NewNode(hostname: string): (n: Node)
    ensures n.dockerCmd
         == "docker run -ti --rm -d --name node-docker -h " + hostname + " " + DOCKER_IMAGE + " bash"
  {
    FormatRunTemplate(hostname);
    Node(Format(DOCKER_RUN_TEMPLATE, RunFields(hostname)).value)
  }

  /** The fields the run template is filled with. */
  function RunFields(hostname: string): map<string, string> {
    map["host" := hostname, "image" := DOCKER_IMAGE]
  }

  /** Filling the run template piece by piece. */
  lemma FormatRunTemplate(hostname: string)
    ensures Format(DOCKER_RUN_TEMPLATE, RunFields(hostname))
         == Some("docker run -ti --rm -d --name node-docker -h " + hostname + " " + DOCKER_IMAGE + " bash")
  {
    var fields := RunFields(hostname);
    var t := DOCKER_RUN_TEMPLATE;
    assert t[4..][1..] == [] && t[3..][1..] == t[4..] && t[2..][1..] == t[3..] && t[1..][1..] == t[2..];
    assert Format(t[4..], fields) == Some(" bash" + "");
    assert " bash" + "" == " bash";
    assert Format(t[2..], fields) == Some(" " + (DOCKER_IMAGE + " bash"));
    assert Format(t[1..], fields) == Some(hostname + (" " + (DOCKER_IMAGE + " bash")));
    assert "docker run -ti --rm -d --name node-docker -h " + (hostname + (" " + (DOCKER_IMAGE + " bash")))
        == "docker run -ti --rm -d --name node-docker -h " + hostname + " " + DOCKER_IMAGE + " bash";
  }

  /** What the collaborators return during one operation. */
  datatype Results = Results(run: int, bridgeStart: int, kill: int)

  /** `setup`: run the container, then start the exec bridge whatever `docker
      run` returned; the firmware argument plays no part. */
  function Setup(n: Node, r: Results, firmware: Option<string>): (o: Outcome)
    ensures Consistent(o)
    ensures Actions(o.trace) == [DockerRun(Split(n.dockerCmd)), DockerBridgeStart]
    ensures Kept(o.trace) == [true, true]
    ensures o.total == r.run + r.bridgeStart
  {
    Then(Counted(DockerRun(Split(n.dockerCmd)), r.run),
         Counted(DockerBridgeStart, r.bridgeStart))
  }

  /** `teardown`: `docker kill node-docker` and nothing else. */
  function Teardown(r: Results): (o: Outcome)
    ensures Consistent(o)
    ensures Actions(o.trace) == [DockerKill(["docker", "kill", CONTAINER_NAME])]
    ensures o.total == r.kill
  {
    KillArgv();
    Counted(DockerKill(Split(DOCKER_KILL_CMD)), r.kill)
  }

  /** The fixed words of `docker run` that come before the hostname. */
  const RUN_OPTIONS: seq<string> := ["docker", "run", "-ti", "--rm", "-d", "--name", "node-docker", "-h"]

  /** The argument vector of `docker run` for a plain hostname: the fixed
      options, the hostname, the image, and the shell. */
  lemma RunArgv(hostname: string)
    requires IsToken(hostname)
    ensures Split(NewNode(hostname).dockerCmd) == RUN_OPTIONS + [hostname, DOCKER_IMAGE, "bash"]
  {
    var rest := hostname + " " + (DOCKER_IMAGE + " " + "bash");
    assert forall i :: 0 <= i < |RUN_OPTIONS| ==> IsToken(RUN_OPTIONS[i]);
    calc {
      Split(NewNode(hostname).dockerCmd);
      { RunCommandWords(hostname); }
      Split(Join(RUN_OPTIONS) + " " + rest);
      { SplitJoinThen(RUN_OPTIONS, rest); }
      RUN_OPTIONS + Split(rest);
      { SplitHostImageShell(hostname); }
      RUN_OPTIONS + [hostname, DOCKER_IMAGE, "bash"];
    }
  }

  lemma RunCommandWords(hostname: string)
    ensures NewNode(hostname).dockerCmd
         == Join(RUN_OPTIONS) + " " + (hostname + " " + (DOCKER_IMAGE + " " + "bash"))
  {
    var cmd := NewNode(hostname).dockerCmd;
    assert cmd == "docker run -ti --rm -d --name node-docker -h " + hostname + " " + DOCKER_IMAGE + " bash";
    RunCommandRegrouped(hostname);
  }

  lemma RunCommandRegrouped(hostname: string)
    ensures "docker run -ti --rm -d --name node-docker -h " + hostname + " " + DOCKER_IMAGE + " bash"
         == Join(RUN_OPTIONS) + " " + (hostname + " " + (DOCKER_IMAGE + " " + "bash"))
  {
    JoinRunOptions();
    assert "docker run -ti --rm -d --name node-docker -h" + " "
        == "docker run -ti --rm -d --name node-docker -h ";
    assert " " + "bash" == " bash";
  }

  lemma JoinRunOptions()
    ensures Join(RUN_OPTIONS) == "docker run -ti --rm -d --name node-docker -h"
  {
    var head := ["docker", "run", "-ti", "--rm"];
    var tail := ["-d", "--name", "node-docker", "-h"];
    assert RUN_OPTIONS == head + tail;
    JoinAppend(head, tail);
    JoinRunHead();
    JoinRunTail();
    assert "docker run -ti --rm" + " " + "-d --name node-docker -h"
        == "docker run -ti --rm -d --name node-docker -h";
  }

  lemma JoinRunHead()
    ensures Join(["docker", "run", "-ti", "--rm"]) == "docker run -ti --rm"
  {
    assert ["docker", "run", "-ti", "--rm"] == ["docker", "run"] + ["-ti", "--rm"];
    JoinAppend(["docker", "run"], ["-ti", "--rm"]);
    JoinPair("docker", "run");
    JoinPair("-ti", "--rm");
    assert "docker" + " " + "run" + " " + ("-ti" + " " + "--rm") == "docker run -ti --rm";
  }

  lemma JoinRunTail()
    ensures Join(["-d", "--name", "node-docker", "-h"]) == "-d --name node-docker -h"
  {
    assert ["-d", "--name", "node-docker", "-h"] == ["-d", "--name"] + ["node-docker", "-h"];
    JoinAppend(["-d", "--name"], ["node-docker", "-h"]);
    JoinPair("-d", "--name");
    JoinPair("node-docker", "-h");
    assert "-d" + " " + "--name" + " " + ("node-docker" + " " + "-h") == "-d --name node-docker -h";
  }

  lemma SplitHostImageShell(hostname: string)
    requires IsToken(hostname)
    ensures Split(hostname + " " + (DOCKER_IMAGE + " " + "bash")) == [hostname, DOCKER_IMAGE, "bash"]
  {
    ImageIsToken();
    assert IsToken("bash");
    SplitToken("bash");
    SplitCons(DOCKER_IMAGE, "bash");
    SplitCons(hostname, DOCKER_IMAGE + " " + "bash");
  }

  lemma ImageIsToken()
    ensures IsToken(DOCKER_IMAGE)
  {
    TokenByChars(DOCKER_IMAGE);
  }

  /** The argument vector of `docker kill`. */
  lemma KillArgv()
    ensures Split(DOCKER_KILL_CMD) == ["docker", "kill", CONTAINER_NAME]
  {
    KillCommandWords();
    KillWordsArePlain();
    SplitJoin(["docker", "kill", "node-docker"]);
  }

  lemma KillCommandWords()
    ensures DOCKER_KILL_CMD == Join(["docker", "kill", "node-docker"])
  {
  }

  lemma KillWordsArePlain()
    ensures forall i :: 0 <= i < 3 ==> IsToken(["docker", "kill", "node-docker"][i])
  {
  }

  /** Setup's calls and count never depend on the firmware argument. */
  lemma SetupIgnoresFirmware(n: Node, r: Results, f1: Option<string>, f2: Option<string>)
    ensures Setup(n, r, f1) == Setup(n, r, f2)
  {
  }

  /** The container is launched before the bridge starts, and the bridge
      starts even when `docker run` failed. */
  lemma SetupOrder(n: Node, r: Results, firmware: Option<string>)
    ensures CalledBefore(Setup(n, r, firmware).trace, DockerRun(Split(n.dockerCmd)), DockerBridgeStart)
    ensures r.run != 0 ==> DockerBridgeStart in Actions(Setup(n, r, firmware).trace)
  {
    var t := Setup(n, r, firmware).trace;
    ActionAt(t, 0);
    ActionAt(t, 1);
    assert t[0].action == DockerRun(Split(n.dockerCmd)) && t[1].action == DockerBridgeStart;
  }

  /** When every docker step succeeds, setup and teardown return 0. */
  lemma AllSucceedGivesZero(n: Node, firmware: Option<string>)
    ensures Setup(n, Results(0, 0, 0), firmware).total == 0
    ensures Teardown(Results(0, 0, 0)).total == 0
  {
  }
}
